/**
 * The spectrum-bars visualizer (`SpectrumBarsMode`): bars of full blocks,
 * one per band, laid out on the canvas with an optional peak dot above
 * each, and the names of the three visualizer modes.
 */
module Modes {
  import opened Render

  datatype VisualizerMode = SpectrumBars | Waveform | Circular

  /** The name each mode reports. */
  function Name(mode: VisualizerMode): (s: string)
    ensures mode == SpectrumBars ==> s == "spectrum"
    ensures mode == Waveform ==> s == "waveform"
    ensures mode == Circular ==> s == "circular"
  {
    match mode
    case SpectrumBars => "spectrum"
    case Waveform => "waveform"
    case Circular => "circular"
  }

  /** Different modes have different names. */
  lemma NamesDistinct(a: VisualizerMode, b: VisualizerMode)
    ensures Name(a) == Name(b) ==> a == b
  {
  }

  const FullBlock: char := '█'
  const PeakDot: char := '·'

  /** A dB magnitude mapped linearly from [-60, 0] onto [0, 1], clamped. */
  function Normalized(magnitude: real): (n: real)
    ensures 0.0 <= n <= 1.0
    ensures magnitude <= -60.0 ==> n == 0.0
    ensures magnitude >= 0.0 ==> n == 1.0
  {
    var n := (magnitude + 60.0) / 60.0;
    if n < 0.0 then 0.0 else if n > 1.0 then 1.0 else n
  }

  lemma NormalizedMonotone(m1: real, m2: real)
    requires m1 <= m2
    ensures Normalized(m1) <= Normalized(m2)
  {
  }

  /**
   * `magnitude_to_height`: the normalized magnitude scaled to the canvas
   * height and truncated.
   */
  function MagnitudeToHeight(magnitude: real, maxHeight: nat): (h: nat)
    ensures h <= maxHeight
    ensures magnitude <= -60.0 ==> h == 0
    ensures magnitude >= 0.0 ==> h == maxHeight
  {
    var normalized := Normalized(magnitude);
    ScaleMonotone(normalized, 1.0, maxHeight as real);
    ScaleMonotone(0.0, normalized, maxHeight as real);
    (normalized * maxHeight as real).Floor as nat
  }

  /** The cases checked by the module's unit test. */
  lemma MagnitudeToHeightExamples()
    ensures MagnitudeToHeight(-60.0, 10) == 0
    ensures MagnitudeToHeight(0.0, 10) == 10
    ensures MagnitudeToHeight(-30.0, 10) == 5
  {
    assert Normalized(-30.0) == 0.5;
    assert (0.5 * 10 as real).Floor == 5;
  }

  /** A louder band never gets a shorter bar. */
  lemma MagnitudeToHeightMonotone(m1: real, m2: real, maxHeight: nat)
    requires m1 <= m2
    ensures MagnitudeToHeight(m1, maxHeight) <= MagnitudeToHeight(m2, maxHeight)
  {
    var c1, c2 := Normalized(m1), Normalized(m2);
    NormalizedMonotone(m1, m2);
    ScaleMonotone(c1, c2, maxHeight as real);
    var s1, s2 := c1 * maxHeight as real, c2 * maxHeight as real;
    assert s1.Floor <= s2.Floor;
    assert MagnitudeToHeight(m1, maxHeight) == s1.Floor;
    assert MagnitudeToHeight(m2, maxHeight) == s2.Floor;
  }

  lemma ScaleMonotone(a: real, b: real, c: real)
    requires a <= b && c >= 0.0
    ensures a * c <= b * c
  {
  }

  lemma MulMonotone(a: nat, b: nat, c: nat)
    requires a <= b
    ensures a * c <= b * c
  {
  }

  // ---------------------------------------------------------------------
  // Bar layout

  function Min(a: nat, b: nat): nat
  {
    if a < b then a else b
  }

  /** Row of the peak dot above a bar of height `barHeight`. */
  function PeakRow(barHeight: nat, height: nat): nat
    requires barHeight < height
  {
    if barHeight > 0 then height - barHeight - 1 else height - 1
  }

  /** Row `y` of a bar's columns: a full block inside the bar, a space above it. */
  function BodyCell(barHeight: nat, height: nat, color: Color, y: nat): Cell
    requires barHeight <= height
  {
    if y >= height - barHeight then Cell(FullBlock, color) else Cell(' ', color)
  }

  /** Row `y` of a bar's columns once the peak dot, if shown, is drawn. */
  function BarCell(barHeight: nat, height: nat, color: Color, showPeaks: bool, y: nat): Cell
    requires barHeight <= height
  {
    if showPeaks && barHeight < height && y == PeakRow(barHeight, height) then Cell(PeakDot, color)
    else BodyCell(barHeight, height, color, y)
  }

  /** Bars drawn: one per band, at most one per column. */
  function NumBars(spectrum: seq<real>, width: nat): nat
  {
    Min(|spectrum|, width)
  }

  /** Columns per bar. */
  function BarWidth(spectrum: seq<real>, width: nat): nat
    requires NumBars(spectrum, width) > 0
  {
    width / NumBars(spectrum, width)
  }

  /**
   * Cell (x, y) after the bars are drawn over a canvas whose cell there was
   * `previous`: in bar `i = x / barWidth`'s columns the bar of band `i`
   * coloured by the scheme's colour for band `i`; elsewhere unchanged.
   */
  function RenderedCell(spectrum: seq<real>, width: nat, height: nat, scheme: ColorScheme,
                        showPeaks: bool, x: nat, y: nat, previous: Cell): Cell
  {
    if |spectrum| == 0 || width == 0 || height == 0 then previous
    else
      var numBars := NumBars(spectrum, width);
      var barWidth := BarWidth(spectrum, width);
      if x >= numBars * barWidth then previous
      else
        var i := x / barWidth;
        if i < numBars then
          BarCell(MagnitudeToHeight(spectrum[i], height), height, GetColor(scheme, i, numBars), showPeaks, y)
        else previous
  }

  /** The whole canvas after the bars are drawn over `grid`. */
  function RenderedGrid(grid: seq<seq<Cell>>, width: nat, height: nat, spectrum: seq<real>,
                        scheme: ColorScheme, showPeaks: bool): (g: seq<seq<Cell>>)
    requires IsGrid(grid, width, height)
    ensures IsGrid(g, width, height)
  {
    seq(height, y requires 0 <= y < height =>
      seq(width, x requires 0 <= x < width =>
        RenderedCell(spectrum, width, height, scheme, showPeaks, x, y, grid[y][x])))
  }

  lemma DivInRange(x: nat, i: nat, w: nat)
    requires w > 0 && i * w <= x < i * w + w
    ensures x / w == i
  {
    var q, r := x / w, x % w;
    var e := x - i * w;
    var d := q - i;
    assert x == q * w + r;
    assert d * w == e - r by {
      assert d * w == q * w - i * w;
    }
  }

  /** Inside bar `i`'s columns the rendered cell is bar `i`'s cell for that row. */
  lemma RenderedCellInBar(spectrum: seq<real>, width: nat, height: nat, scheme: ColorScheme,
                          showPeaks: bool, i: nat, x: nat, y: nat, previous: Cell)
    requires |spectrum| > 0 && width > 0 && height > 0
    requires i < NumBars(spectrum, width)
    requires i * BarWidth(spectrum, width) <= x < i * BarWidth(spectrum, width) + BarWidth(spectrum, width)
    ensures x < NumBars(spectrum, width) * BarWidth(spectrum, width)
    ensures RenderedCell(spectrum, width, height, scheme, showPeaks, x, y, previous)
         == BarCell(MagnitudeToHeight(spectrum[i], height), height,
                    GetColor(scheme, i, NumBars(spectrum, width)), showPeaks, y)
  {
    var numBars := NumBars(spectrum, width);
    var barWidth := BarWidth(spectrum, width);
    MulSucc(i, barWidth);
    MulMonotone(i + 1, numBars, barWidth);
    DivInRange(x, i, barWidth);
  }

  lemma BarsFit(width: nat, numBars: nat)
    requires numBars > 0
    ensures numBars * (width / numBars) <= width
  {
  }

  lemma GridFromCells(grid: seq<seq<Cell>>, before: seq<seq<Cell>>, width: nat, height: nat,
                      spectrum: seq<real>, scheme: ColorScheme, showPeaks: bool)
    requires IsGrid(grid, width, height) && IsGrid(before, width, height)
    requires PaintedUpTo(grid, before, width, height, spectrum, scheme, showPeaks, width)
    ensures grid == RenderedGrid(before, width, height, spectrum, scheme, showPeaks)
  {
    var expected := RenderedGrid(before, width, height, spectrum, scheme, showPeaks);
    forall yy | 0 <= yy < height
      ensures grid[yy] == expected[yy]
    {
    }
  }

  /** Columns left of `x` hold the rendered cells; the rest still hold `before`. */
  ghost predicate PaintedUpTo(grid: seq<seq<Cell>>, before: seq<seq<Cell>>, width: nat, height: nat,
                              spectrum: seq<real>, scheme: ColorScheme, showPeaks: bool, x: nat)
    requires IsGrid(grid, width, height) && IsGrid(before, width, height)
  {
    forall yy, xx :: 0 <= yy < height && 0 <= xx < width ==>
      grid[yy][xx] == if xx < x
        then RenderedCell(spectrum, width, height, scheme, showPeaks, xx, yy, before[yy][xx])
        else before[yy][xx]
  }

  /** Columns from `numBars * barWidth` on render to what was there, so painting stops there. */
  lemma PaintedToEnd(grid: seq<seq<Cell>>, before: seq<seq<Cell>>, width: nat, height: nat,
                     spectrum: seq<real>, scheme: ColorScheme, showPeaks: bool)
    requires IsGrid(grid, width, height) && IsGrid(before, width, height)
    requires |spectrum| > 0 && width > 0
    requires PaintedUpTo(grid, before, width, height, spectrum, scheme, showPeaks,
                         NumBars(spectrum, width) * BarWidth(spectrum, width))
    ensures PaintedUpTo(grid, before, width, height, spectrum, scheme, showPeaks, width)
  {
    BarsFit(width, NumBars(spectrum, width));
  }

  /** Drawing bar `i` over its columns extends the painted prefix by one bar width. */
  lemma BarStep(previous: seq<seq<Cell>>, current: seq<seq<Cell>>, before: seq<seq<Cell>>,
                width: nat, height: nat, spectrum: seq<real>, scheme: ColorScheme, showPeaks: bool,
                i: nat, x: nat)
    requires IsGrid(previous, width, height) && IsGrid(current, width, height) && IsGrid(before, width, height)
    requires |spectrum| > 0 && width > 0 && height > 0 && i < NumBars(spectrum, width)
    requires x == i * BarWidth(spectrum, width)
    requires PaintedUpTo(previous, before, width, height, spectrum, scheme, showPeaks, x)
    requires forall yy, xx :: 0 <= yy < height && 0 <= xx < width ==>
      current[yy][xx] == if x <= xx < x + BarWidth(spectrum, width)
        then BarCell(MagnitudeToHeight(spectrum[i], height), height,
                     GetColor(scheme, i, NumBars(spectrum, width)), showPeaks, yy)
        else previous[yy][xx]
    ensures PaintedUpTo(current, before, width, height, spectrum, scheme, showPeaks, x + BarWidth(spectrum, width))
  {
    var barWidth := BarWidth(spectrum, width);
    forall yy, xx | 0 <= yy < height && 0 <= xx < width
      ensures current[yy][xx] == if xx < x + barWidth
        then RenderedCell(spectrum, width, height, scheme, showPeaks, xx, yy, before[yy][xx])
        else before[yy][xx]
    {
      if x <= xx < x + barWidth {
        RenderedCellInBar(spectrum, width, height, scheme, showPeaks, i, xx, yy, before[yy][xx]);
      }
    }
  }

  /**
   * `SpectrumBarsMode::render`. Nothing is drawn for an empty spectrum or
   * an empty canvas. Otherwise the first `min(|spectrum|, width)` bands
   * are drawn as bars `width / numBars` columns wide, left to right.
   */
  method RenderSpectrumBars(spectrum: seq<real>, canvas: Canvas, scheme: ColorScheme, showPeaks: bool)
    requires canvas.Valid()
    modifies canvas
    ensures canvas.Valid() && canvas.width == old(canvas.width) && canvas.height == old(canvas.height)
    ensures canvas.buffer
      == RenderedGrid(old(canvas.buffer), canvas.width, canvas.height, spectrum, scheme, showPeaks)
  {
    var width := canvas.width;
    var height := canvas.height;
    ghost var before := canvas.buffer;
    if |spectrum| == 0 || width == 0 || height == 0 {
      EmptyInputLeavesCanvas(before, width, height, spectrum, scheme, showPeaks);
      return;
    }
    var numBars := Min(|spectrum|, width);
    var barWidth := width / numBars;
    BarsFit(width, numBars);
    var x := 0;
    for i := 0 to numBars
      invariant canvas.Valid() && canvas.width == width && canvas.height == height
      invariant x == i * barWidth && x <= numBars * barWidth
      invariant IsGrid(before, width, height)
      invariant PaintedUpTo(canvas.buffer, before, width, height, spectrum, scheme, showPeaks, x)
    {
      var color := GetColor(scheme, i, numBars);
      var barHeight := MagnitudeToHeight(spectrum[i], height);
      MulSucc(i, barWidth);
      MulMonotone(i + 1, numBars, barWidth);
      ghost var previous := canvas.buffer;
      DrawBar(canvas, x, barWidth, barHeight, color, showPeaks);
      BarStep(previous, canvas.buffer, before, width, height, spectrum, scheme, showPeaks, i, x);
      x := x + barWidth;
    }
    PaintedToEnd(canvas.buffer, before, width, height, spectrum, scheme, showPeaks);
    GridFromCells(canvas.buffer, before, width, height, spectrum, scheme, showPeaks);
  }

  /** One bar's columns `[x0, x0 + barWidth)`: the body row by row, then the peak dot. */
  method DrawBar(canvas: Canvas, x0: nat, barWidth: nat, barHeight: nat, color: Color, showPeaks: bool)
    requires canvas.Valid() && x0 + barWidth <= canvas.width && barHeight <= canvas.height
    modifies canvas
    ensures canvas.Valid() && canvas.width == old(canvas.width) && canvas.height == old(canvas.height)
    ensures forall yy, xx :: 0 <= yy < canvas.height && 0 <= xx < canvas.width ==>
      canvas.buffer[yy][xx] == if x0 <= xx < x0 + barWidth
        then BarCell(barHeight, canvas.height, color, showPeaks, yy)
        else old(canvas.buffer[yy][xx])
  {
    var width := canvas.width;
    var height := canvas.height;
    ghost var before := canvas.buffer;
    for y := 0 to height
      invariant canvas.Valid() && canvas.width == width && canvas.height == height
      invariant forall yy, xx :: 0 <= yy < height && 0 <= xx < width ==>
        canvas.buffer[yy][xx] == if x0 <= xx < x0 + barWidth && yy < y
          then BodyCell(barHeight, height, color, yy)
          else before[yy][xx]
    {
      var charToDraw := if y >= height - barHeight then FullBlock else ' ';
      FillRow(canvas, x0, barWidth, y, Cell(charToDraw, color));
    }
    if showPeaks && barHeight < height {
      var peakY := if barHeight > 0 then height - barHeight - 1 else height - 1;
      FillRow(canvas, x0, barWidth, peakY, Cell(PeakDot, color));
    }
  }

  /** The columns `[x0, x0 + barWidth)` of row `y` that lie on the canvas are set to `cell`. */
  method FillRow(canvas: Canvas, x0: nat, barWidth: nat, y: nat, cell: Cell)
    requires canvas.Valid() && y < canvas.height
    modifies canvas
    ensures canvas.Valid() && canvas.width == old(canvas.width) && canvas.height == old(canvas.height)
    ensures forall yy, xx :: 0 <= yy < canvas.height && 0 <= xx < canvas.width ==>
      canvas.buffer[yy][xx] == if yy == y && x0 <= xx < x0 + barWidth then cell else old(canvas.buffer[yy][xx])
  {
    var width := canvas.width;
    for dx := 0 to barWidth
      invariant canvas.Valid() && canvas.width == width && canvas.height == old(canvas.height)
      invariant forall yy, xx :: 0 <= yy < canvas.height && 0 <= xx < width ==>
        canvas.buffer[yy][xx] == if yy == y && x0 <= xx < x0 + dx then cell else old(canvas.buffer[yy][xx])
    {
      if x0 + dx < width {
        canvas.SetCell(x0 + dx, y, cell);
      }
    }
  }

  // ---------------------------------------------------------------------
  // What the layout looks like

  /** Nothing is drawn for an empty spectrum or an empty canvas. */
  lemma EmptyInputLeavesCanvas(grid: seq<seq<Cell>>, width: nat, height: nat, spectrum: seq<real>,
                               scheme: ColorScheme, showPeaks: bool)
    requires IsGrid(grid, width, height)
    requires |spectrum| == 0 || width == 0 || height == 0
    ensures RenderedGrid(grid, width, height, spectrum, scheme, showPeaks) == grid
  {
    var g := RenderedGrid(grid, width, height, spectrum, scheme, showPeaks);
    forall y | 0 <= y < height
      ensures g[y] == grid[y]
    {
    }
  }

  /** Columns from `numBars * barWidth` on are never written. */
  lemma ColumnsBeyondBarsUntouched(grid: seq<seq<Cell>>, width: nat, height: nat, spectrum: seq<real>,
                                   scheme: ColorScheme, showPeaks: bool, x: nat, y: nat)
    requires IsGrid(grid, width, height) && x < width && y < height
    requires |spectrum| > 0 && x >= NumBars(spectrum, width) * BarWidth(spectrum, width)
    ensures RenderedGrid(grid, width, height, spectrum, scheme, showPeaks)[y][x] == grid[y][x]
  {
  }

  /** The three kinds of cell in a bar's column. */
  lemma BarCellShape(h: nat, height: nat, color: Color, showPeaks: bool, y: nat)
    requires h <= height && y < height
    ensures var cell := BarCell(h, height, color, showPeaks, y);
      && cell.color == color
      && (cell.character == FullBlock <==> y >= height - h)
      && (cell.character == PeakDot <==> showPeaks && h < height && y == height - h - 1)
      && (cell.character == ' ' <==> y < height - h && !(showPeaks && y == height - h - 1))
  {
  }

  lemma MulSucc(i: nat, w: nat)
    ensures (i + 1) * w == i * w + w
  {
  }

  /** Bar `i`'s columns lie inside the canvas, left of `numBars * barWidth`. */
  lemma BarColumnsInCanvas(spectrum: seq<real>, width: nat, i: nat, dx: nat)
    requires |spectrum| > 0 && width > 0
    requires i < NumBars(spectrum, width) && dx < BarWidth(spectrum, width)
    ensures i * BarWidth(spectrum, width) + dx < NumBars(spectrum, width) * BarWidth(spectrum, width) <= width
  {
    var numBars := NumBars(spectrum, width);
    var barWidth := BarWidth(spectrum, width);
    MulSucc(i, barWidth);
    MulMonotone(i + 1, numBars, barWidth);
    BarsFit(width, numBars);
  }

  /**
   * In bar `i`'s columns, with `h` the bar's height: the cell is a full
   * block exactly in the bottom `h` rows, a peak dot exactly in the row
   * just above the bar when peaks are shown and the bar is not full, and a
   * space otherwise; every cell has band `i`'s colour.
   */
  lemma BarColumnShape(grid: seq<seq<Cell>>, width: nat, height: nat, spectrum: seq<real>,
                       scheme: ColorScheme, showPeaks: bool, i: nat, x: nat, y: nat)
    requires IsGrid(grid, width, height) && x < width && y < height && |spectrum| > 0
    requires i < NumBars(spectrum, width)
    requires i * BarWidth(spectrum, width) <= x < i * BarWidth(spectrum, width) + BarWidth(spectrum, width)
    ensures var h := MagnitudeToHeight(spectrum[i], height);
      var cell := RenderedGrid(grid, width, height, spectrum, scheme, showPeaks)[y][x];
      && cell.color == GetColor(scheme, i, NumBars(spectrum, width))
      && (cell.character == FullBlock <==> y >= height - h)
      && (cell.character == PeakDot <==> showPeaks && h < height && y == height - h - 1)
      && (cell.character == ' ' <==> y < height - h && !(showPeaks && y == height - h - 1))
  {
    var numBars := NumBars(spectrum, width);
    var h := MagnitudeToHeight(spectrum[i], height);
    var color := GetColor(scheme, i, numBars);
    RenderedCellInBar(spectrum, width, height, scheme, showPeaks, i, x, y, grid[y][x]);
    assert RenderedGrid(grid, width, height, spectrum, scheme, showPeaks)[y][x]
        == BarCell(h, height, color, showPeaks, y);
    BarCellShape(h, height, color, showPeaks, y);
  }
}
