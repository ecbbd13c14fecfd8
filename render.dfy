/**
 * The frame buffer the visualizer modes draw into (`Canvas`) and the colour
 * scheme that assigns a colour to each band (`ColorScheme`).
 */
module Render {
  import opened Wrappers
  import opened Text

  /** The terminal colours the visualizer uses. */
  datatype Color =
    | Reset | Black | Red | Green | Yellow | Blue | Magenta | Cyan | White
    | DarkRed | DarkYellow | DarkGreen | DarkCyan | DarkBlue | DarkMagenta
    | Grey | DarkGrey

  datatype Cell = Cell(character: char, color: Color)

  /** A blank cell: a space in the default colour. */
  const EmptyCell: Cell := Cell(' ', Reset)

  /** `height` rows of `width` blank cells. */
  function Blank(width: nat, height: nat): (g: seq<seq<Cell>>)
    ensures |g| == height
    ensures forall y :: 0 <= y < height ==> |g[y]| == width
    ensures forall y, x :: 0 <= y < height && 0 <= x < width ==> g[y][x] == EmptyCell
  {
    seq(height, y => seq(width, x => EmptyCell))
  }

  /** A grid of `height` rows of `width` cells. */
  ghost predicate IsGrid(g: seq<seq<Cell>>, width: nat, height: nat)
  {
    |g| == height && forall y :: 0 <= y < height ==> |g[y]| == width
  }

  class Canvas {
    var width: nat
    var height: nat
    var buffer: seq<seq<Cell>>

    ghost predicate Valid()
      reads this
    {
      IsGrid(buffer, width, height)
    }

    /** `Canvas::new`: `height` rows of `width` blank cells. */
    constructor (width: nat, height: nat)
      ensures Valid()
      ensures this.width == width && this.height == height && buffer == Blank(width, height)
    {
      this.width := width;
      this.height := height;
      buffer := Blank(width, height);
    }

    /** `get_cell`: the cell at (x, y), or None outside the canvas. */
    function GetCell(x: nat, y: nat): (r: Option<Cell>)
      reads this
      requires Valid()
      ensures r.Some? <==> x < width && y < height
      ensures r.Some? ==> r.value == buffer[y][x]
    {
      if x < width && y < height then Some(buffer[y][x]) else None
    }

    /**
     * `set_cell`: inside the canvas exactly cell (x, y) becomes `cell`;
     * outside it nothing changes.
     */
    method SetCell(x: nat, y: nat, cell: Cell)
      requires Valid()
      modifies this
      ensures Valid() && width == old(width) && height == old(height)
      ensures x < width && y < height ==> GetCell(x, y) == Some(cell)
      ensures forall yy, xx :: 0 <= yy < height && 0 <= xx < width && (xx != x || yy != y) ==>
        buffer[yy][xx] == old(buffer[yy][xx])
      ensures !(x < width && y < height) ==> buffer == old(buffer)
    {
      if x < width && y < height {
        buffer := buffer[y := buffer[y][x := cell]];
      }
    }

    /** `clear`: every cell blank, dimensions kept. */
    method Clear()
      requires Valid()
      modifies this
      ensures Valid() && width == old(width) && height == old(height)
      ensures buffer == Blank(width, height)
    {
      for y := 0 to |buffer|
        invariant Valid() && width == old(width) && height == old(height)
        invariant forall yy :: 0 <= yy < y ==> buffer[yy] == Blank(width, height)[yy]
      {
        for x := 0 to |buffer[y]|
          invariant Valid() && width == old(width) && height == old(height)
          invariant forall yy :: 0 <= yy < y ==> buffer[yy] == Blank(width, height)[yy]
          invariant forall xx :: 0 <= xx < x ==> buffer[y][xx] == EmptyCell
        {
          buffer := buffer[y := buffer[y][x := EmptyCell]];
        }
        assert buffer[y] == Blank(width, height)[y];
      }
    }

    /** `resize`: the new dimensions, every cell blank. */
    method Resize(width: nat, height: nat)
      requires Valid()
      modifies this
      ensures Valid()
      ensures this.width == width && this.height == height && buffer == Blank(width, height)
    {
      this.width := width;
      this.height := height;
      buffer := Blank(width, height);
    }
  }

  // ---------------------------------------------------------------------
  // Colour schemes

  datatype ColorScheme = ColorScheme(colors: seq<Color>)

  /** Red, yellow, green, cyan, blue: warm colours for bass, cool for treble. */
  function DefaultScheme(): (s: ColorScheme)
    ensures s.colors == [Red, Yellow, Green, Cyan, Blue]
  {
    ColorScheme([Red, Yellow, Green, Cyan, Blue])
  }

  /** `ColorScheme::gradient`: the given colours, or the default scheme for none. */
  function Gradient(colors: seq<Color>): (s: ColorScheme)
    ensures colors != [] ==> s.colors == colors
    ensures colors == [] ==> s == DefaultScheme()
  {
    if colors == [] then DefaultScheme() else ColorScheme(colors)
  }

  /** The names `parse_color_name` accepts, after lower-casing, with their colours. */
  const ColorNames: map<string, Color> := map[
    "red" := Red, "yellow" := Yellow, "green" := Green, "cyan" := Cyan,
    "blue" := Blue, "magenta" := Magenta, "white" := White, "black" := Black,
    "dark_red" := DarkRed, "darkred" := DarkRed,
    "dark_yellow" := DarkYellow, "darkyellow" := DarkYellow,
    "dark_green" := DarkGreen, "darkgreen" := DarkGreen,
    "dark_cyan" := DarkCyan, "darkcyan" := DarkCyan,
    "dark_blue" := DarkBlue, "darkblue" := DarkBlue,
    "dark_magenta" := DarkMagenta, "darkmagenta" := DarkMagenta,
    "grey" := Grey, "gray" := Grey
  ]

  datatype ColorError = UnknownColorName(name: string)

  /**
   * `parse_color_name`: case-insensitive lookup of a colour name; any other
   * name is an error carrying the name as given.
   */
  function ParseColorName(name: string): (r: Result<Color, ColorError>)
    ensures r.Ok? <==> ToLower(name) in ColorNames
    ensures r.Ok? ==> r.value == ColorNames[ToLower(name)]
    ensures r.Err? ==> r.error == UnknownColorName(name)
  {
    var key := ToLower(name);
    if key in ColorNames then Ok(ColorNames[key]) else Err(UnknownColorName(name))
  }

  /** The aliases: `dark_x` and `darkx` name the same colour, as do `grey` and `gray`. */
  lemma ColorAliases()
    ensures ParseColorName("gray") == ParseColorName("grey") == Ok(Grey)
    ensures ParseColorName("dark_blue") == ParseColorName("darkblue") == Ok(DarkBlue)
    ensures ParseColorName("RED") == ParseColorName("red") == Ok(Red)
    ensures ParseColorName("Dark_Magenta") == Ok(DarkMagenta)
  {
    GreyAliases();
    DarkBlueAliases();
    RedAnyCase();
    DarkMagentaMixedCase();
  }

  lemma GreyAliases()
    ensures ParseColorName("gray") == ParseColorName("grey") == Ok(Grey)
  {
    assert ToLower("gray") == "gray";
    assert ToLower("grey") == "grey";
  }

  lemma DarkBlueAliases()
    ensures ParseColorName("dark_blue") == ParseColorName("darkblue") == Ok(DarkBlue)
  {
    assert ToLower("dark_blue") == "dark_blue";
    assert ToLower("darkblue") == "darkblue";
  }

  lemma RedAnyCase()
    ensures ParseColorName("RED") == ParseColorName("red") == Ok(Red)
  {
    assert ToLower("RED") == "red";
    assert ToLower("red") == "red";
  }

  lemma DarkMagentaMixedCase()
    ensures ParseColorName("Dark_Magenta") == Ok(DarkMagenta)
  {
    assert ToLower("Dark_Magenta") == "dark_magenta";
  }

  /** `error` is the error of the first name in `names` that is not a colour. */
  ghost predicate FirstUnknown(names: seq<string>, error: ColorError)
  {
    exists j :: 0 <= j < |names| && FailsFirstAt(names, j) && error == UnknownColorName(names[j])
  }

  predicate FailsFirstAt(names: seq<string>, j: nat)
    requires j < |names|
  {
    ParseColorName(names[j]).Err? && forall i :: 0 <= i < j ==> ParseColorName(names[i]).Ok?
  }

  /**
   * `ColorScheme::from_names`: the default scheme for no names; otherwise
   * one colour per name, in order, or the error of the first name that is
   * not a colour.
   */
  method FromNames(names: seq<string>) returns (r: Result<ColorScheme, ColorError>)
    ensures names == [] ==> r == Ok(DefaultScheme())
    ensures names != [] && r.Ok? ==>
      |r.value.colors| == |names|
      && forall i :: 0 <= i < |names| ==> ParseColorName(names[i]) == Ok(r.value.colors[i])
    ensures r.Ok? <==> forall i :: 0 <= i < |names| ==> ParseColorName(names[i]).Ok?
    ensures r.Err? ==> FirstUnknown(names, r.error)
  {
    if names == [] {
      return Ok(DefaultScheme());
    }
    var colors: seq<Color> := [];
    for i := 0 to |names|
      invariant |colors| == i
      invariant forall j :: 0 <= j < i ==> ParseColorName(names[j]) == Ok(colors[j])
    {
      var color := ParseColorName(names[i]);
      if color.Err? {
        assert FailsFirstAt(names, i);
        return Err(color.error);
      }
      colors := colors + [color.value];
    }
    r := Ok(ColorScheme(colors));
  }

  /**
   * Index into a scheme of `len >= 2` colours for band `band` of
   * `numBands`: the band's position `band / (numBands - 1)` is scaled to
   * the `len - 1` segments, the segment index is cut to at most `len - 2`,
   * and the nearer end of the segment is taken.
   */
  function GradientIndex(band: nat, numBands: nat, len: nat): (k: nat)
    requires len >= 2
    ensures k < len
  {
    NearestIndex(GradientPosition(band, numBands, len), len)
  }

  /** The band's position along the gradient, from 0.0 for the first band to `len - 1`. */
  function GradientPosition(band: nat, numBands: nat, len: nat): (t: real)
    requires len >= 2
    ensures t >= 0.0
  {
    if numBands > 1 then
      var scaled: nat := band * (len - 1);
      QuotientMonotone(0.0, scaled as real, (numBands - 1) as real);
      scaled as real / (numBands - 1) as real
    else 0.0
  }

  /** The segment start below `t` (at most `len - 2`), moved up when `t` is past its middle. */
  function NearestIndex(t: real, len: nat): (k: nat)
    requires t >= 0.0 && len >= 2
    ensures k < len
  {
    var floor := t.Floor;
    var segment: nat := if floor < len - 2 then floor else len - 2;
    if t - segment as real < 0.5 then segment else segment + 1
  }

  /**
   * `get_color`: White for an empty scheme, the only colour of a
   * one-colour scheme, otherwise the gradient colour of the band.
   */
  function GetColor(scheme: ColorScheme, band: nat, numBands: nat): (c: Color)
    ensures scheme.colors == [] ==> c == White
    ensures scheme.colors != [] ==> c in scheme.colors
    ensures |scheme.colors| == 1 ==> c == scheme.colors[0]
  {
    if scheme.colors == [] then White
    else if |scheme.colors| == 1 then scheme.colors[0]
    else scheme.colors[GradientIndex(band, numBands, |scheme.colors|)]
  }

  /** The first band takes the first colour and the last band the last colour. */
  lemma GradientEnds(band: nat, numBands: nat, len: nat)
    requires len >= 2
    ensures band == 0 ==> GradientIndex(band, numBands, len) == 0
    ensures numBands > 1 && band == numBands - 1 ==> GradientIndex(band, numBands, len) == len - 1
  {
    if numBands > 1 && band == numBands - 1 {
      assert GradientPosition(band, numBands, len) == (len - 1) as real;
    }
  }

  /** Later bands never take an earlier colour of the gradient. */
  lemma GradientIndexMonotone(b1: nat, b2: nat, numBands: nat, len: nat)
    requires len >= 2 && b1 <= b2
    ensures GradientIndex(b1, numBands, len) <= GradientIndex(b2, numBands, len)
  {
    GradientPositionMonotone(b1, b2, numBands, len);
    NearestIndexMonotone(GradientPosition(b1, numBands, len), GradientPosition(b2, numBands, len), len);
  }

  lemma GradientPositionMonotone(b1: nat, b2: nat, numBands: nat, len: nat)
    requires len >= 2 && b1 <= b2
    ensures GradientPosition(b1, numBands, len) <= GradientPosition(b2, numBands, len)
  {
    if numBands > 1 {
      assert b1 * (len - 1) <= b2 * (len - 1);
      QuotientMonotone((b1 * (len - 1)) as real, (b2 * (len - 1)) as real, (numBands - 1) as real);
    }
  }

  lemma QuotientMonotone(a: real, b: real, d: real)
    requires a <= b && d > 0.0
    ensures a / d <= b / d
  {
  }

  lemma NearestIndexMonotone(t1: real, t2: real, len: nat)
    requires 0.0 <= t1 <= t2 && len >= 2
    ensures NearestIndex(t1, len) <= NearestIndex(t2, len)
  {
    assert t1.Floor <= t2.Floor;
  }
}
