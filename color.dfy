/** `Color` (src/color/mod.rs): an unclamped linear RGB triple, its channel-wise
    arithmetic, and its conversion to the 0..255 values a PPM image holds. */
module Colors {
  import opened NumberUtils
  import opened Text

  datatype Color = Color(red: real, green: real, blue: real)

  /** Channel `i` of `c`: 0 is red, 1 is green, 2 is blue. */
  function Channel(c: Color, i: nat): real
    requires i < 3
  {
    if i == 0 then c.red else if i == 1 then c.green else c.blue
  }

  /** `Color::new`: the channels are stored as given, with no clamping. */
  function New(red: real, green: real, blue: real): (c: Color)
    ensures Channel(c, 0) == red && Channel(c, 1) == green && Channel(c, 2) == blue
  {
    Color(red, green, blue)
  }

  const Black := Color(0.0, 0.0, 0.0)
  const Red := Color(1.0, 0.0, 0.0)
  const Green := Color(0.0, 1.0, 0.0)
  const Blue := Color(0.0, 0.0, 1.0)
  const White := Color(1.0, 1.0, 1.0)

  // ---------------------------------------------------------------- arithmetic

  function Add(a: Color, b: Color): (r: Color)
    ensures forall i :: 0 <= i < 3 ==> Channel(r, i) == Channel(a, i) + Channel(b, i)
  {
    Color(a.red + b.red, a.green + b.green, a.blue + b.blue)
  }

  function Sub(a: Color, b: Color): (r: Color)
    ensures forall i :: 0 <= i < 3 ==> Channel(r, i) == Channel(a, i) - Channel(b, i)
  {
    Color(a.red - b.red, a.green - b.green, a.blue - b.blue)
  }

  /** `Mul<f32>`: every channel times the scalar. */
  function Scale(c: Color, s: real): (r: Color)
    ensures forall i :: 0 <= i < 3 ==> Channel(r, i) == Channel(c, i) * s
  {
    Color(c.red * s, c.green * s, c.blue * s)
  }

  /** `Div<f32>`: every channel divided by the scalar. */
  function Div(c: Color, s: real): (r: Color)
    requires s != 0.0
    ensures forall i :: 0 <= i < 3 ==> Channel(r, i) == Channel(c, i) / s
  {
    Color(c.red / s, c.green / s, c.blue / s)
  }

  /** `Mul<Color>`, the Hadamard (Schur) product used to blend colours. */
  function Hadamard(a: Color, b: Color): (r: Color)
    ensures forall i :: 0 <= i < 3 ==> Channel(r, i) == Channel(a, i) * Channel(b, i)
  {
    Color(a.red * b.red, a.green * b.green, a.blue * b.blue)
  }

  lemma AddSubInverse(a: Color, b: Color)
    ensures Sub(Add(a, b), b) == a && Add(Sub(a, b), b) == a
  {
  }

  lemma ScaleDivInverse(c: Color, s: real)
    requires s != 0.0
    ensures Div(Scale(c, s), s) == c && Scale(Div(c, s), s) == c
  {
    MulDivCancel(c.red, s);
    MulDivCancel(c.green, s);
    MulDivCancel(c.blue, s);
    assert Scale(c, s) == Color(c.red * s, c.green * s, c.blue * s);
    assert Div(c, s) == Color(c.red / s, c.green / s, c.blue / s);
  }

  lemma MulDivCancel(x: real, s: real)
    requires s != 0.0
    ensures x * s / s == x && x / s * s == x
  {
  }

  lemma ArithmeticLaws(a: Color, b: Color, c: Color)
    ensures Add(a, b) == Add(b, a) && Hadamard(a, b) == Hadamard(b, a)
    ensures Add(Add(a, b), c) == Add(a, Add(b, c))
    ensures Add(a, Black) == a && Hadamard(a, White) == a && Hadamard(a, Black) == Black
    ensures Scale(a, 1.0) == a && Scale(a, 0.0) == Black
    ensures Add(Add(Red, Green), Blue) == White
  {
  }

  /** `is_equal_to`: every channel pair within the f32 comparison's tolerance. */
  function IsEqualTo(a: Color, b: Color): (r: bool)
    ensures r <==> forall i :: 0 <= i < 3 ==> CompareFloats(Channel(a, i), Channel(b, i))
  {
    assert (forall i :: 0 <= i < 3 ==> CompareFloats(Channel(a, i), Channel(b, i))) <==>
      CompareFloats(a.red, b.red) && CompareFloats(a.green, b.green) && CompareFloats(a.blue, b.blue) by {
      assert Channel(a, 0) == a.red && Channel(a, 1) == a.green && Channel(a, 2) == a.blue;
      assert Channel(b, 0) == b.red && Channel(b, 1) == b.green && Channel(b, 2) == b.blue;
    }
    CompareFloats32(a.red, b.red) && CompareFloats32(a.green, b.green) && CompareFloats32(a.blue, b.blue)
  }

  lemma IsEqualToReflexiveSymmetric(a: Color, b: Color)
    ensures IsEqualTo(a, a)
    ensures IsEqualTo(a, b) == IsEqualTo(b, a)
  {
  }

  /** The arithmetic the source's tests check. */
  lemma ArithmeticTestValues()
    ensures New(-0.5, 0.4, 1.7) == Color(-0.5, 0.4, 1.7)
    ensures IsEqualTo(Add(Color(0.9, 0.6, 0.75), Color(0.7, 0.1, 0.25)), Color(1.6, 0.7, 1.0))
    ensures IsEqualTo(Sub(Color(0.9, 0.6, 0.75), Color(0.7, 0.1, 0.25)), Color(0.2, 0.5, 0.5))
    ensures IsEqualTo(Scale(Color(0.2, 0.3, 0.4), 2.0), Color(0.4, 0.6, 0.8))
    ensures IsEqualTo(Hadamard(Color(1.0, 0.2, 0.4), Color(0.9, 1.0, 0.1)), Color(0.9, 0.2, 0.04))
  {
  }

  // ---------------------------------------------------------------- display values

  /** `f32::round`: to the nearest whole number, halves away from zero
      (`RoundNearest`). */
  function Round(x: real): int {
    if x >= 0.0 then (x + 0.5).Floor else -((-x + 0.5).Floor)
  }

  lemma RoundNearest(x: real)
    ensures x >= 0.0 ==> (Round(x) as real) - 0.5 <= x < (Round(x) as real) + 0.5
    ensures x < 0.0 ==> (Round(x) as real) - 0.5 < x <= (Round(x) as real) + 0.5
  {
  }

  /** `to_ppm_value`: 255 times the channel, rounded, then clamped into 0..255
      (`ToPpmValueClamps`). */
  function ToPpmValue(v: real): (n: int)
    ensures 0 <= n <= 255
  {
    var n := Round(255.0 * v);
    if n < 0 then 0 else if n > 255 then 255 else n
  }

  /** Channels at or below 0 show as 0, at or above 1 as 255, and in between as the
      nearest whole number to 255 times the channel. */
  lemma ToPpmValueClamps(v: real)
    ensures v <= 0.0 ==> ToPpmValue(v) == 0
    ensures v >= 1.0 ==> ToPpmValue(v) == 255
    ensures 0.0 <= v <= 1.0 ==> (ToPpmValue(v) as real) - 0.5 <= 255.0 * v < (ToPpmValue(v) as real) + 0.5
  {
    RoundNearest(255.0 * v);
  }

  /** A brighter channel never gets a smaller display value. */
  lemma ToPpmValueMonotonic(v1: real, v2: real)
    requires v1 <= v2
    ensures ToPpmValue(v1) <= ToPpmValue(v2)
  {
    RoundNearest(255.0 * v1);
    RoundNearest(255.0 * v2);
  }

  lemma ToPpmValueTestValues()
    ensures ToPpmValue(1.5) == 255 && ToPpmValue(-0.5) == 0
    ensures ToPpmValue(0.5) == 128 && ToPpmValue(0.8) == 204 && ToPpmValue(0.6) == 153
    ensures ToPpmValue(0.0) == 0 && ToPpmValue(1.0) == 255
  {
  }

  /** The three display values of a pixel as decimal words, red first. */
  function PixelWords(c: Color): (ws: seq<string>)
    ensures |ws| == 3
    ensures forall i :: 0 <= i < 3 ==> ws[i] == Dec(ToPpmValue(Channel(c, i)))
    ensures forall i :: 0 <= i < 3 ==> IsWord(ws[i]) && |ws[i]| <= 3 && DecValue(ws[i]) == ToPpmValue(Channel(c, i))
  {
    var ws := [Dec(ToPpmValue(c.red)), Dec(ToPpmValue(c.green)), Dec(ToPpmValue(c.blue))];
    DisplayWords(c, ws);
    ws
  }

  lemma DisplayWords(c: Color, ws: seq<string>)
    requires ws == [Dec(ToPpmValue(c.red)), Dec(ToPpmValue(c.green)), Dec(ToPpmValue(c.blue))]
    ensures forall i :: 0 <= i < 3 ==> ws[i] == Dec(ToPpmValue(Channel(c, i)))
    ensures forall i :: 0 <= i < 3 ==> IsWord(ws[i]) && |ws[i]| <= 3 && DecValue(ws[i]) == ToPpmValue(Channel(c, i))
  {
    forall i | 0 <= i < 3
      ensures IsWord(ws[i]) && |ws[i]| <= 3 && DecValue(ws[i]) == ToPpmValue(Channel(c, i))
    {
      var v := ToPpmValue(Channel(c, i));
      assert ws[i] == Dec(v);
      DecLength(v);
      DecIsWord(v);
    }
  }

  /** `to_string`: the red, green and blue display values separated by single spaces
      (`PixelTextWords` says what it reads back as). */
  function PixelText(c: Color): string {
    Dec(ToPpmValue(c.red)) + " " + Dec(ToPpmValue(c.green)) + " " + Dec(ToPpmValue(c.blue))
  }

  /** The pixel text is the display values joined by spaces, and cutting it at the
      spaces gives the three values back. */
  lemma PixelTextWords(c: Color)
    ensures PixelText(c) == Join(PixelWords(c), " ")
    ensures Split(PixelText(c), ' ') == PixelWords(c)
  {
    var ws := PixelWords(c);
    PixelWordsJoin(ws);
    PixelWordsSplit(ws);
  }

  lemma PixelWordsJoin(ws: seq<string>)
    requires |ws| == 3
    ensures Join(ws, " ") == ws[0] + " " + ws[1] + " " + ws[2]
  {
    assert ws[1..][1..] == [ws[2]];
    assert Join(ws[1..], " ") == ws[1] + " " + ws[2];
  }

  lemma PixelWordsSplit(ws: seq<string>)
    requires |ws| == 3 && forall i :: 0 <= i < 3 ==> IsWord(ws[i])
    ensures Split(Join(ws, " "), ' ') == ws
  {
    forall i | 0 <= i < 3 ensures ' ' !in ws[i] {
      WordAvoids(ws[i]);
    }
    SplitJoin(ws, ' ');
  }

  lemma NamedColorTexts()
    ensures PixelText(Black) == "0 0 0" && PixelText(White) == "255 255 255"
    ensures PixelText(Red) == "255 0 0" && PixelText(Green) == "0 255 0" && PixelText(Blue) == "0 0 255"
  {
    BlackText();
    WhiteText();
    RedText();
    GreenText();
    BlueText();
  }

  /** The display values of channels 0 and 1, written out. */
  lemma ZeroAndFullDec()
    ensures Dec(ToPpmValue(0.0)) == "0" && Dec(ToPpmValue(1.0)) == "255"
  {
    assert ToPpmValue(0.0) == 0 && ToPpmValue(1.0) == 255;
    DecThreeDigits(255, "255");
  }

  lemma BlackText()
    ensures PixelText(Black) == "0 0 0"
  {
    ZeroAndFullDec();
    ThreeValuesText(Black, "0", "0", "0");
  }

  lemma WhiteText()
    ensures PixelText(White) == "255 255 255"
  {
    ZeroAndFullDec();
    ThreeValuesText(White, "255", "255", "255");
  }

  lemma RedText()
    ensures PixelText(Red) == "255 0 0"
  {
    ZeroAndFullDec();
    ThreeValuesText(Red, "255", "0", "0");
  }

  lemma GreenText()
    ensures PixelText(Green) == "0 255 0"
  {
    ZeroAndFullDec();
    ThreeValuesText(Green, "0", "255", "0");
  }

  lemma BlueText()
    ensures PixelText(Blue) == "0 0 255"
  {
    ZeroAndFullDec();
    ThreeValuesText(Blue, "0", "0", "255");
  }

  /** The text of a colour whose display values are written `rs`, `gs`, `bs`. */
  lemma ThreeValuesText(c: Color, rs: string, gs: string, bs: string)
    requires Dec(ToPpmValue(c.red)) == rs && Dec(ToPpmValue(c.green)) == gs && Dec(ToPpmValue(c.blue)) == bs
    ensures PixelText(c) == rs + " " + gs + " " + bs
  {
  }

  lemma DecSmallValues()
    ensures Dec(0) == "0" && Dec(255) == "255" && Dec(128) == "128"
    ensures Dec(204) == "204" && Dec(153) == "153"
  {
    DecThreeDigits(255, "255");
    DecThreeDigits(128, "128");
    DecThreeDigits(204, "204");
    DecThreeDigits(153, "153");
  }
}
