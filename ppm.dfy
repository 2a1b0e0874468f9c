/** The text of a PPM ("P3") image body as the canvas writes it: each row of pixel
    strings joined by spaces, and a row too long for one line packed greedily onto
    several. */
module Ppm {
  import opened Text
  import opened Colors

  /** The longest line `format_vector` lets through. */
  const MaxLine: nat := 70

  /** `g` has `height` rows of `width` cells each. */
  ghost predicate IsGrid(g: seq<seq<Color>>, width: nat, height: nat) {
    |g| == height && forall y :: 0 <= y < height ==> |g[y]| == width
  }

  /** A row's pixels rendered by `Color::to_string`, left pixel first. */
  function RowText(row: seq<Color>): seq<string> {
    seq(|row|, x requires 0 <= x < |row| => PixelText(row[x]))
  }

  // ---------------------------------------------------------------- line wrapping

  /** The two strings `format_vector` carries through its loop: the finished lines,
      and the line being filled. */
  datatype PackState = PackState(formatted: string, prev: string)

  /** One turn of the loop: the token goes on the current line, separated by a space,
      unless that makes the line longer than `MaxLine`; then the current line is
      trimmed and finished, and the token starts the next one. */
  function PackStep(st: PackState, v: string): PackState {
    var temp := st.prev + " " + v;
    if |temp| > MaxLine then PackState(st.formatted + Trim(st.prev) + "\n", v)
    else PackState(st.formatted, temp)
  }

  /** The loop's state after the given tokens, starting from two empty strings. */
  function Pack(tokens: seq<string>): PackState
    decreases |tokens|
  {
    if |tokens| == 0 then PackState("", "")
    else PackStep(Pack(tokens[..|tokens| - 1]), tokens[|tokens| - 1])
  }

  /** What `format_vector` returns for a row of pixel strings: the row joined by spaces
      with a newline, wrapped only when that text (newline included) exceeds
      `MaxLine`. The wrapped text is the finished lines followed by the last line,
      which keeps the row's newline. */
  function FormatRow(vec: seq<string>): string {
    var row := Join(vec, " ") + "\n";
    if |row| > MaxLine then
      var st := Pack(Split(row, ' '));
      st.formatted + st.prev
    else row
  }

  /** The PPM body of a grid: every row formatted, top row first. */
  function PpmData(pixels: seq<seq<Color>>): string
    decreases |pixels|
  {
    if |pixels| == 0 then ""
    else PpmData(pixels[..|pixels| - 1]) + FormatRow(RowText(pixels[|pixels| - 1]))
  }
}
