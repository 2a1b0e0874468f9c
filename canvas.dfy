/** `Canvas` (src/canvas/mod.rs): a grid of colours updated one pixel at a time, and
    its serialisation to the plain-text PPM ("P3") image format. */
module Canvases {
  import opened Text
  import opened Colors
  import opened Ppm
  import opened CanvasLayout

  /** `vec![vec![color; width]; height]`. */
  function Filled(width: nat, height: nat, color: Color): (g: seq<seq<Color>>)
    ensures IsGrid(g, width, height)
    ensures forall y, x :: 0 <= y < height && 0 <= x < width ==> g[y][x] == color
  {
    seq(height, _ => seq(width, _ => color))
  }

  /** The header text cut at newlines is the magic number, the dimensions, the maximum
      channel value and the empty rest; the dimensions line cut at the space holds
      the two numbers. */
  lemma HeaderLines(width: nat, height: nat)
    ensures var h := "P3\n" + Dec(width) + " " + Dec(height) + "\n255\n";
            Split(h, '\n') == ["P3", Dec(width) + " " + Dec(height), "255", ""]
            && Split(Dec(width) + " " + Dec(height), ' ') == [Dec(width), Dec(height)]
  {
    DimensionsLine(width, height);
    HeaderFrameOf(Dec(width), Dec(height));
  }

  lemma HeaderFrameOf(ws: string, hs: string)
    requires '\n' !in ws + " " + hs
    ensures Split("P3\n" + ws + " " + hs + "\n255\n", '\n') == ["P3", ws + " " + hs, "255", ""]
  {
    var dims := ws + " " + hs;
    assert "P3\n" + ws + " " + hs + "\n255\n" == "P3\n" + dims + "\n255\n";
    HeaderFrame(dims);
  }

  lemma DimensionsLine(width: nat, height: nat)
    ensures var dims := Dec(width) + " " + Dec(height);
            '\n' !in dims && Split(dims, ' ') == [Dec(width), Dec(height)]
  {
    DecIsWord(width);
    DecIsWord(height);
    assert ' ' !in Dec(width) && ' ' !in Dec(height);
    SplitTwo(Dec(width), Dec(height), ' ');
  }

  lemma HeaderFrame(dims: string)
    requires '\n' !in dims
    ensures Split("P3\n" + dims + "\n255\n", '\n') == ["P3", dims, "255", ""]
  {
    assert "P3\n" + dims + "\n255\n" == "P3" + ['\n'] + dims + ['\n'] + "255" + ['\n'];
    SplitThreeLines("P3", dims, "255", '\n');
  }

  // ---------------------------------------------------------------- the canvas

  class Canvas {
    var width: nat
    var height: nat
    var pixels: seq<seq<Color>>

    /** `pixels` is indexed `pixels[y][x]` and has the canvas's dimensions. */
    ghost predicate Valid()
      reads this
    {
      IsGrid(pixels, width, height)
    }

    /** `Canvas::new`: every pixel black. */
    constructor (width: nat, height: nat)
      ensures Valid() && this.width == width && this.height == height
      ensures pixels == Filled(width, height, Black)
    {
      this.width := width;
      this.height := height;
      pixels := Filled(width, height, Black);
    }

    /** `Canvas::new_with_color`: every pixel `color`. */
    constructor WithColor(width: nat, height: nat, color: Color)
      ensures Valid() && this.width == width && this.height == height
      ensures pixels == Filled(width, height, color)
    {
      this.width := width;
      this.height := height;
      pixels := Filled(width, height, color);
    }

    /** `get_pixel_at`; out-of-range coordinates make the source panic. */
    function PixelAt(x: nat, y: nat): Color
      reads this
      requires Valid() && x < width && y < height
    {
      pixels[y][x]
    }

    /** `write_pixel_at`: one cell changes, every other cell and the dimensions stay. */
    method WritePixelAt(x: nat, y: nat, color: Color)
      requires Valid() && x < width && y < height
      modifies this
      ensures Valid() && width == old(width) && height == old(height)
      ensures pixels == old(pixels)[y := old(pixels)[y][x := color]]
      ensures PixelAt(x, y) == color
      ensures forall j, i :: 0 <= j < height && 0 <= i < width && (i != x || j != y) ==>
                PixelAt(i, j) == old(PixelAt(i, j))
    {
      pixels := pixels[y := pixels[y][x := color]];
    }

    /** `format_ppm_header`: "P3", the dimensions and 255 on three lines; the second
        line is the width and the height in decimal, which read back as the dimensions. */
    function FormatPpmHeader(): (h: string)
      reads this
      ensures var lines := Split(h, '\n');
              |lines| == 4 && lines[0] == "P3" && lines[2] == "255" && lines[3] == ""
              && lines[1] == Dec(width) + " " + Dec(height)
              && var dims := Split(lines[1], ' ');
                 dims == [Dec(width), Dec(height)]
                 && DecValue(dims[0]) == width && DecValue(dims[1]) == height
    {
      HeaderLines(width, height);
      "P3\n" + Dec(width) + " " + Dec(height) + "\n255\n"
    }

    /** `format_ppm_data`: the rows formatted in order and concatenated. On a canvas at
        least one pixel wide no line is longer than `MaxLine`, the text ends with a
        newline when there are rows, and cutting it at newlines and spaces gives every
        pixel's display values, row by row; a canvas with no columns gives one newline
        per row. */
    method FormatPpmData() returns (data: string)
      requires Valid()
      ensures data == PpmData(pixels)
      ensures width > 0 ==> && LinesWithin(data, MaxLine)
                            && (height > 0 ==> EndsWithNewline(data))
                            && LineWords(data) == BodyWords(pixels)
      ensures width == 0 ==> data == seq(height, _ => '\n')
    {
      data := "";
      for y := 0 to |pixels|
        invariant data == PpmData(pixels[..y])
      {
        var formattedVector := RowText(pixels[y]);
        var rowText := FormatVector(formattedVector);
        assert pixels[..y + 1][..y] == pixels[..y];
        data := data + rowText;
      }
      assert pixels[..|pixels|] == pixels;
      if width > 0 {
        BodyLayout(pixels, width);
      } else {
        EmptyRowsLayout(pixels);
      }
    }

    /** `format_vector`: join the pixel strings with spaces and a newline; if that is
        longer than `MaxLine`, split it at the spaces and pack the tokens greedily. */
    static method FormatVector(vec: seq<string>) returns (r: string)
      ensures r == FormatRow(vec)
      ensures ShortWords(Split(Join(vec, " "), ' ')) ==>
                && EndsWithNewline(r) && LinesWithin(r, MaxLine)
                && LineWords(r) == Split(Join(vec, " "), ' ')
    {
      var colorRow := Join(vec, " ") + "\n";
      if |colorRow| > MaxLine {
        var formatted := "";
        var prev := "";
        var tokens := Split(colorRow, ' ');
        for i := 0 to |tokens|
          invariant PackState(formatted, prev) == Pack(tokens[..i])
        {
          var v := tokens[i];
          var temp := prev + " " + v;
          if |temp| > MaxLine {
            formatted := formatted + Trim(prev) + "\n";
            prev := v;
          } else {
            prev := temp;
          }
          assert tokens[..i + 1][..i] == tokens[..i];
        }
        assert tokens[..|tokens|] == tokens;
        r := formatted + prev;
      } else {
        r := colorRow;
      }
      if ShortWords(Split(Join(vec, " "), ' ')) {
        RowLayout(vec);
      }
    }
  }
}
