/** The canvas behaviours exercised by the unit tests of src/canvas/mod.rs, stated as
    methods that build a canvas and return what the test inspects. */
module CanvasExamples {
  import opened Text
  import opened Colors
  import opened Ppm
  import opened CanvasLayout
  import opened Canvases

  /** A new 10 by 20 canvas has 20 rows and black corners. */
  method NewCanvasExample() returns (rows: nat, first: Color, last: Color)
    ensures rows == 20 && first == Black && last == Black
  {
    var c := new Canvas(10, 20);
    rows := |c.pixels|;
    first := c.PixelAt(0, 0);
    last := c.PixelAt(9, 19);
  }

  /** Writing red at (2, 3) of a black canvas turns that pixel from black to red. */
  method WritePixelExample() returns (before: Color, after: Color)
    ensures before == Black && after == Red
  {
    var c := new Canvas(10, 20);
    before := c.PixelAt(2, 3);
    c.WritePixelAt(2, 3, Red);
    after := c.PixelAt(2, 3);
  }

  /** The header of a 10 by 20 canvas. */
  method HeaderExample() returns (h: string)
    ensures h == "P3\n10 20\n255\n"
  {
    var c := new Canvas(10, 20);
    h := c.FormatPpmHeader();
    HeaderTenByTwenty();
  }

  lemma HeaderTenByTwenty()
    ensures "P3\n" + Dec(10) + " " + Dec(20) + "\n255\n" == "P3\n10 20\n255\n"
  {
    DecTwoDigits(10, "10");
    DecTwoDigits(20, "20");
    HeaderText(Dec(10), Dec(20));
  }

  lemma HeaderText(ws: string, hs: string)
    requires ws == "10" && hs == "20"
    ensures "P3\n" + ws + " " + hs + "\n255\n" == "P3\n10 20\n255\n"
  {
  }

  /** A 5 by 3 black canvas with three pixels written: one short line per row, the
      out-of-range channels clamped. */
  method FormatDataExample() returns (data: string)
    ensures data == "255 0 0 0 0 0 0 0 0 0 0 0 0 0 0\n"
                  + "0 0 0 0 0 0 0 128 0 0 0 0 0 0 0\n"
                  + "0 0 0 0 0 0 0 0 0 0 0 0 0 0 255\n"
  {
    var c := new Canvas(5, 3);
    var c1, c2, c3 := New(1.5, 0.0, 0.0), New(0.0, 0.5, 0.0), New(-0.5, 0.0, 1.0);
    c.WritePixelAt(0, 0, c1);
    c.WritePixelAt(2, 1, c2);
    c.WritePixelAt(4, 2, c3);
    assert c.pixels[0] == [c1, Black, Black, Black, Black];
    assert c.pixels[1] == [Black, Black, c2, Black, Black];
    assert c.pixels[2] == [Black, Black, Black, Black, c3];
    assert c.pixels == [[c1, Black, Black, Black, Black],
                        [Black, Black, c2, Black, Black],
                        [Black, Black, Black, Black, c3]];
    data := c.FormatPpmData();
    SmallBody(c1, c2, c3);
  }

  lemma BrightRedText()
    ensures PixelText(Color(1.5, 0.0, 0.0)) == "255 0 0"
  {
    assert ToPpmValue(1.5) == 255;
    DecThreeDigits(255, "255");
    ZeroAndFullDec();
    ThreeValuesText(Color(1.5, 0.0, 0.0), "255", "0", "0");
  }

  lemma HalfGreenText()
    ensures PixelText(Color(0.0, 0.5, 0.0)) == "0 128 0"
  {
    assert ToPpmValue(0.5) == 128;
    DecThreeDigits(128, "128");
    ZeroAndFullDec();
    ThreeValuesText(Color(0.0, 0.5, 0.0), "0", "128", "0");
  }

  lemma ClampedBlueText()
    ensures PixelText(Color(-0.5, 0.0, 1.0)) == "0 0 255"
  {
    assert ToPpmValue(-0.5) == 0;
    ZeroAndFullDec();
    ThreeValuesText(Color(-0.5, 0.0, 1.0), "0", "0", "255");
  }

  /** Five pixel strings that fit on one line come out joined by spaces. */
  lemma FiveOnOneLine(a: string, b: string, c: string, d: string, e: string)
    requires |a| + |b| + |c| + |d| + |e| + 5 <= MaxLine
    ensures FormatRow([a, b, c, d, e]) == a + " " + b + " " + c + " " + d + " " + e + "\n"
  {
    JoinFive(a, b, c, d, e);
    ShortRowUnchanged([a, b, c, d, e]);
  }

  lemma JoinFive(a: string, b: string, c: string, d: string, e: string)
    ensures Join([a, b, c, d, e], " ") == a + " " + b + " " + c + " " + d + " " + e
  {
    var v := [a, b, c, d, e];
    assert v[1..][1..][1..][1..] == [e];
    assert Join(v[1..][1..][1..], " ") == d + " " + e;
    assert Join(v[1..][1..], " ") == c + " " + d + " " + e;
    assert Join(v[1..], " ") == b + " " + c + " " + d + " " + e;
  }

  lemma SmallBody(c1: Color, c2: Color, c3: Color)
    requires c1 == Color(1.5, 0.0, 0.0) && c2 == Color(0.0, 0.5, 0.0) && c3 == Color(-0.5, 0.0, 1.0)
    ensures PpmData([[c1, Black, Black, Black, Black],
                     [Black, Black, c2, Black, Black],
                     [Black, Black, Black, Black, c3]])
            == "255 0 0 0 0 0 0 0 0 0 0 0 0 0 0\n"
             + "0 0 0 0 0 0 0 128 0 0 0 0 0 0 0\n"
             + "0 0 0 0 0 0 0 0 0 0 0 0 0 0 255\n"
  {
    var r0, r1, r2 := [c1, Black, Black, Black, Black], [Black, Black, c2, Black, Black], [Black, Black, Black, Black, c3];
    var g := [r0, r1, r2];
    assert g[..2] == [r0, r1];
    assert [r0, r1][..1] == [r0];
    assert [r0][..0] == [];
    assert PpmData([r0]) == FormatRow(RowText(r0));
    assert PpmData([r0, r1]) == FormatRow(RowText(r0)) + FormatRow(RowText(r1));
    assert PpmData(g) == FormatRow(RowText(r0)) + FormatRow(RowText(r1)) + FormatRow(RowText(r2));
    SmallRow0(c1);
    SmallRow1(c2);
    SmallRow2(c3);
  }

  lemma SmallRow0(c1: Color)
    requires c1 == Color(1.5, 0.0, 0.0)
    ensures FormatRow(RowText([c1, Black, Black, Black, Black])) == "255 0 0 0 0 0 0 0 0 0 0 0 0 0 0\n"
  {
    var p, b := PixelText(c1), PixelText(Black);
    BrightRedText();
    BlackText();
    var r := [c1, Black, Black, Black, Black];
    assert RowText(r) == [p, b, b, b, b];
    FiveOnOneLine(p, b, b, b, b);
    SmallRow0Text(p, b);
  }

  lemma SmallRow0Text(p: string, b: string)
    requires p == "255 0 0" && b == "0 0 0"
    ensures p + " " + b + " " + b + " " + b + " " + b + "\n" == "255 0 0 0 0 0 0 0 0 0 0 0 0 0 0\n"
  {
  }

  lemma SmallRow1(c2: Color)
    requires c2 == Color(0.0, 0.5, 0.0)
    ensures FormatRow(RowText([Black, Black, c2, Black, Black])) == "0 0 0 0 0 0 0 128 0 0 0 0 0 0 0\n"
  {
    var p, b := PixelText(c2), PixelText(Black);
    HalfGreenText();
    BlackText();
    var r := [Black, Black, c2, Black, Black];
    assert RowText(r) == [b, b, p, b, b];
    FiveOnOneLine(b, b, p, b, b);
    SmallRow1Text(p, b);
  }

  lemma SmallRow1Text(p: string, b: string)
    requires p == "0 128 0" && b == "0 0 0"
    ensures b + " " + b + " " + p + " " + b + " " + b + "\n" == "0 0 0 0 0 0 0 128 0 0 0 0 0 0 0\n"
  {
  }

  lemma SmallRow2(c3: Color)
    requires c3 == Color(-0.5, 0.0, 1.0)
    ensures FormatRow(RowText([Black, Black, Black, Black, c3])) == "0 0 0 0 0 0 0 0 0 0 0 0 0 0 255\n"
  {
    var p, b := PixelText(c3), PixelText(Black);
    ClampedBlueText();
    BlackText();
    var r := [Black, Black, Black, Black, c3];
    assert RowText(r) == [b, b, b, b, p];
    FiveOnOneLine(b, b, b, b, p);
    SmallRow2Text(p, b);
  }

  lemma SmallRow2Text(p: string, b: string)
    requires p == "0 0 255" && b == "0 0 0"
    ensures b + " " + b + " " + b + " " + b + " " + p + "\n" == "0 0 0 0 0 0 0 0 0 0 0 0 0 0 255\n"
  {
  }

  // ---------------------------------------------------------------- a row that wraps

  /** A 10 by 2 canvas of one colour: each row's 30 values do not fit on one line, so
      each row is written as a line of 17 values and a line of 13. */
  method LongDataExample() returns (data: string)
    ensures data == "255 204 153 255 204 153 255 204 153 255 204 153 255 204 153 255 204\n"
                  + "153 255 204 153 255 204 153 255 204 153 255 204 153\n"
                  + "255 204 153 255 204 153 255 204 153 255 204 153 255 204 153 255 204\n"
                  + "153 255 204 153 255 204 153 255 204 153 255 204 153\n"
  {
    var color := New(1.0, 0.8, 0.6);
    var c := new Canvas.WithColor(10, 2, color);
    var row := seq(10, _ => color);
    assert c.pixels == [row, row];
    data := c.FormatPpmData();
    LongBody(row, color);
  }

  lemma LongBody(row: seq<Color>, color: Color)
    requires row == seq(10, _ => color) && color == Color(1.0, 0.8, 0.6)
    ensures PpmData([row, row])
            == "255 204 153 255 204 153 255 204 153 255 204 153 255 204 153 255 204\n"
             + "153 255 204 153 255 204 153 255 204 153 255 204 153\n"
             + "255 204 153 255 204 153 255 204 153 255 204 153 255 204 153 255 204\n"
             + "153 255 204 153 255 204 153 255 204 153 255 204 153\n"
  {
    TwoRows(row);
    LongRow(row, color);
  }

  lemma TwoRows(row: seq<Color>)
    ensures PpmData([row, row]) == FormatRow(RowText(row)) + FormatRow(RowText(row))
  {
    assert [row, row][..1] == [row];
    assert [row][..0] == [];
    assert PpmData([row]) == FormatRow(RowText(row));
  }

  /** The first `i` tokens, each a word, fit on the first line behind its leading space:
      nothing is finished yet. */
  lemma {:induction false} PackFirstLine(t: seq<string>, i: nat)
    requires 0 < i <= |t|
    requires forall j :: 0 <= j < i ==> IsWord(t[j])
    requires 1 + |Join(t[..i], " ")| <= MaxLine
    ensures Pack(t[..i]) == PackState("", " " + Join(t[..i], " "))
    decreases i
  {
    assert t[..i][..i - 1] == t[..i - 1];
    if i == 1 {
      assert t[..1] == [t[0]];
    } else {
      assert t[..i] == t[..i - 1] + [t[i - 1]];
      JoinSnoc(t[..i - 1], t[i - 1], " ");
      PackFirstLine(t, i - 1);
    }
  }

  /** Token `k` does not fit behind the first `k`: the first line is finished. */
  lemma PackBreak(t: seq<string>, k: nat)
    requires 0 < k < |t|
    requires forall j :: 0 <= j < k ==> IsWord(t[j])
    requires Pack(t[..k]) == PackState("", " " + Join(t[..k], " "))
    requires |" " + Join(t[..k], " ") + " " + t[k]| > MaxLine
    ensures Pack(t[..k + 1]) == PackState(Join(t[..k], " ") + "\n", t[k])
  {
    assert t[..k + 1][..k] == t[..k];
    assert Pack(t[..k + 1]) == PackStep(Pack(t[..k]), t[k]);
    JoinWordsEnds(t[..k]);
    TrimLeadingSpace(Join(t[..k], " "), true);
  }

  /** After the break at `k`, the tokens from `k` on fill the second line while it
      fits. */
  lemma {:induction false} PackSecondLine(t: seq<string>, k: nat, f: string, i: nat)
    requires k < i <= |t|
    requires Pack(t[..k + 1]) == PackState(f, t[k])
    requires |Join(t[k..i], " ")| <= MaxLine
    ensures Pack(t[..i]) == PackState(f, Join(t[k..i], " "))
    decreases i
  {
    if i == k + 1 {
      assert t[k..k + 1] == [t[k]];
    } else {
      assert t[..i][..i - 1] == t[..i - 1];
      assert t[k..i] == t[k..i - 1] + [t[i - 1]];
      JoinSnoc(t[k..i - 1], t[i - 1], " ");
      PackSecondLine(t, k, f, i - 1);
      assert Pack(t[..i]) == PackStep(Pack(t[..i - 1]), t[i - 1]);
      FitStep(Pack(t[..i - 1]), t[i - 1]);
    }
  }

  /** The three display values of the colour (1, 0.8, 0.6). */
  const Triple: seq<string> := ["255", "204", "153"]

  /** The first and second line of a wrapped row of that colour, as words. */
  const LineOne: seq<string> := Triple + Triple + Triple + Triple + Triple + ["255", "204"]
  const LineTwo: seq<string> := ["153"] + Triple + Triple + Triple + Triple

  lemma TripleWords(color: Color)
    requires color == Color(1.0, 0.8, 0.6)
    ensures PixelWords(color) == Triple
  {
    ToPpmValueTestValues();
    DecSmallValues();
  }

  /** `ws` written `n` times over. */
  ghost function Repeat(ws: seq<string>, n: nat): seq<string> {
    if n == 0 then [] else Repeat(ws, n - 1) + ws
  }

  /** A row of `n` pixels of one colour has that colour's values `n` times over. */
  lemma {:induction false} UniformRowWords(color: Color, n: nat)
    ensures RowWords(seq(n, _ => color)) == Repeat(PixelWords(color), n)
  {
    if n > 0 {
      var r := seq(n, _ => color);
      assert r[..n - 1] == seq(n - 1, _ => color) && r[n - 1] == color;
      assert RowWords(r) == RowWords(r[..n - 1]) + PixelWords(color);
      UniformRowWords(color, n - 1);
    }
  }

  /** The row's values are the colour's three values ten times over. */
  lemma LongRowWords(row: seq<Color>, color: Color)
    requires row == seq(10, _ => color) && color == Color(1.0, 0.8, 0.6)
    ensures RowWords(row) == LineOne + LineTwo
  {
    TripleWords(color);
    UniformRowWords(color, 10);
    TenTriples();
  }

  lemma TenTriples()
    ensures Repeat(Triple, 10) == LineOne + LineTwo
  {
    var t, p, q := Triple, ["255", "204"], ["153"];
    var u := t + t + t + t;
    RepeatAdd(t, 5, 5);
    FiveTriples();
    assert LineOne == (u + t) + p;
    assert LineTwo == q + u;
    Regroup(u + t, u, t, p, q);
  }

  lemma FiveTriples()
    ensures var u := Triple + Triple + Triple + Triple;
            Repeat(Triple, 5) == u + Triple && Repeat(Triple, 5) == Triple + u
  {
  }

  lemma Regroup(f: seq<string>, u: seq<string>, t: seq<string>, p: seq<string>, q: seq<string>)
    requires t == p + q
    ensures (f + p) + (q + u) == f + (t + u)
  {
  }

  /** `m + n` copies are `m` copies followed by `n` copies. */
  lemma {:induction false} RepeatAdd(ws: seq<string>, m: nat, n: nat)
    ensures Repeat(ws, m + n) == Repeat(ws, m) + Repeat(ws, n)
    decreases n
  {
    if n > 0 {
      RepeatAdd(ws, m, n - 1);
      assert Repeat(ws, m + n) == Repeat(ws, m + (n - 1)) + ws;
    }
  }

  lemma JoinTriple()
    ensures Join(Triple, " ") == "255 204 153"
  {
    assert Triple[1..][1..] == ["153"];
  }

  /** Five triples joined: the triple's text five times, separated by spaces. */
  lemma JoinFiveTriples()
    ensures var j := Join(Triple, " ");
            Join(Triple + Triple + Triple + Triple + Triple, " ") == j + " " + j + " " + j + " " + j + " " + j
  {
    var t := Triple;
    JoinConcat(t, t, " ");
    JoinConcat(t + t, t, " ");
    JoinConcat(t + t + t, t, " ");
    JoinConcat(t + t + t + t, t, " ");
  }

  lemma JoinLineOne()
    ensures Join(LineOne, " ") == "255 204 153 255 204 153 255 204 153 255 204 153 255 204 153 255 204"
  {
    var a5 := Triple + Triple + Triple + Triple + Triple;
    JoinFiveTriples();
    assert Join(["255", "204"], " ") == "255" + " " + "204" by {
      assert ["255", "204"][1..] == ["204"];
    }
    JoinConcat(a5, ["255", "204"], " ");
    JoinTriple();
    LineOneTextStep1();
    LineOneTextStep2();
    LineOneTextStep3();
    LineOneTextStep4();
    LineOneTextStep5();
  }

  // The first line's text, grown one triple at a time.

  lemma LineOneTextStep1()
    ensures "255 204 153" + " " + "255 204 153"
            == "255 204 153 255 204 153"
  {
  }

  lemma LineOneTextStep2()
    ensures "255 204 153 255 204 153" + " " + "255 204 153"
            == "255 204 153 255 204 153 255 204 153"
  {
  }

  lemma LineOneTextStep3()
    ensures "255 204 153 255 204 153 255 204 153" + " " + "255 204 153"
            == "255 204 153 255 204 153 255 204 153 255 204 153"
  {
  }

  lemma LineOneTextStep4()
    ensures "255 204 153 255 204 153 255 204 153 255 204 153" + " " + "255 204 153"
            == "255 204 153 255 204 153 255 204 153 255 204 153 255 204 153"
  {
  }

  lemma LineOneTextStep5()
    ensures "255 204 153 255 204 153 255 204 153 255 204 153 255 204 153" + " " + ("255" + " " + "204")
            == "255 204 153 255 204 153 255 204 153 255 204 153 255 204 153 255 204"
  {
  }

  lemma JoinLineTwo()
    ensures Join(LineTwo, " ") == "153 255 204 153 255 204 153 255 204 153 255 204 153"
  {
    var t := Triple;
    JoinConcat(["153"], t, " ");
    JoinConcat(["153"] + t, t, " ");
    JoinConcat(["153"] + t + t, t, " ");
    JoinConcat(["153"] + t + t + t, t, " ");
    JoinTriple();
    LineTwoTextStep1();
    LineTwoTextStep2();
    LineTwoTextStep3();
    LineTwoTextStep4();
  }

  // The second line's text, grown one triple at a time.

  lemma LineTwoTextStep1()
    ensures "153" + " " + "255 204 153"
            == "153 255 204 153"
  {
  }

  lemma LineTwoTextStep2()
    ensures "153 255 204 153" + " " + "255 204 153"
            == "153 255 204 153 255 204 153"
  {
  }

  lemma LineTwoTextStep3()
    ensures "153 255 204 153 255 204 153" + " " + "255 204 153"
            == "153 255 204 153 255 204 153 255 204 153"
  {
  }

  lemma LineTwoTextStep4()
    ensures "153 255 204 153 255 204 153 255 204 153" + " " + "255 204 153"
            == "153 255 204 153 255 204 153 255 204 153 255 204 153"
  {
  }

  /** One row of the 10 by 2 canvas: the packing breaks before value 17. */
  lemma LongRow(row: seq<Color>, color: Color)
    requires row == seq(10, _ => color) && color == Color(1.0, 0.8, 0.6)
    ensures FormatRow(RowText(row))
            == "255 204 153 255 204 153 255 204 153 255 204 153 255 204 153 255 204\n"
             + "153 255 204 153 255 204 153 255 204 153 255 204 153\n"
  {
    var t := LongRowTokens(row, color);
    LongRowPack(t);
  }

  ghost predicate AllWords(ws: seq<string>) {
    forall i :: 0 <= i < |ws| ==> IsWord(ws[i])
  }

  lemma AllWordsConcat(a: seq<string>, b: seq<string>)
    requires AllWords(a) && AllWords(b)
    ensures AllWords(a + b)
  {
    assert forall i :: 0 <= i < |a| ==> (a + b)[i] == a[i];
    assert forall i :: |a| <= i < |a + b| ==> (a + b)[i] == b[i - |a|];
  }

  lemma LineOneWords()
    ensures AllWords(LineOne)
  {
    var t := Triple;
    assert IsWord("255") && IsWord("204") && IsWord("153");
    assert AllWords(t);
    AllWordsConcat(t, t);
    AllWordsConcat(t + t, t);
    AllWordsConcat(t + t + t, t);
    AllWordsConcat(t + t + t + t, t);
    assert AllWords(["255", "204"]);
    AllWordsConcat(t + t + t + t + t, ["255", "204"]);
  }

  /** The packing of the wrapped row's tokens: 17 values on the first line (68
      characters with the leading space), the other 13 on the second. */
  lemma LongRowPack(t: seq<string>)
    requires t == LineOne + LineTwo[..12] + ["153\n"]
    ensures Pack(t) == PackState("255 204 153 255 204 153 255 204 153 255 204 153 255 204 153 255 204\n",
                                 "153 255 204 153 255 204 153 255 204 153 255 204 153\n")
  {
    LongRowBreak(t);
    LongRowSecondLine(t);
    JoinLineOne();
    JoinLineTwo();
  }

  /** The 18th value does not fit behind the first 17: the first line is finished. */
  lemma LongRowBreak(t: seq<string>)
    requires t == LineOne + LineTwo[..12] + ["153\n"]
    ensures Pack(t[..18]) == PackState(Join(LineOne, " ") + "\n", "153")
  {
    JoinLineOne();
    LineOneWords();
    assert t[..17] == LineOne;
    PackFirstLine(t, 17);
    assert t[17] == "153";
    PackBreak(t, 17);
  }

  /** The remaining 13 values, the last with the newline, fill the second line. */
  lemma LongRowSecondLine(t: seq<string>)
    requires t == LineOne + LineTwo[..12] + ["153\n"]
    requires Pack(t[..18]) == PackState(Join(LineOne, " ") + "\n", "153")
    ensures Pack(t) == PackState(Join(LineOne, " ") + "\n", Join(LineTwo, " ") + "\n")
  {
    JoinLineTwo();
    var rest := LineTwo[..12];
    assert t[17..30] == rest + ["153\n"];
    assert LineTwo == rest + ["153"];
    JoinSnoc(rest, "153\n", " ");
    JoinSnoc(rest, "153", " ");
    assert Join(t[17..30], " ") == Join(LineTwo, " ") + "\n";
    PackSecondLine(t, 17, Join(LineOne, " ") + "\n", 30);
    assert t[..30] == t;
  }

  /** The tokens `format_vector` packs for the row: its 30 values, the last carrying
      the row's newline. */
  lemma LongRowTokens(row: seq<Color>, color: Color) returns (t: seq<string>)
    requires row == seq(10, _ => color) && color == Color(1.0, 0.8, 0.6)
    ensures |Join(RowText(row), " ") + "\n"| > MaxLine
    ensures t == Split(Join(RowText(row), " ") + "\n", ' ')
    ensures t == LineOne + LineTwo[..12] + ["153\n"]
  {
    LongRowWords(row, color);
    LongRowLength(row);
    RowTokens(row);
    t := Split(Join(RowText(row), " ") + "\n", ' ');
    LastValue();
    assert "153" + "\n" == "153\n";
  }

  lemma LongRowLength(row: seq<Color>)
    requires |row| > 0 && RowWords(row) == LineOne + LineTwo
    ensures |Join(RowText(row), " ")| == 119
  {
    RowTextJoin(row);
    JoinLineOne();
    JoinLineTwo();
    JoinConcat(LineOne, LineTwo, " ");
  }

  /** The tokens `format_vector` splits a row's text into: the row's values, the last
      one carrying the newline. */
  lemma RowTokens(row: seq<Color>)
    requires |row| > 0
    ensures var w := RowWords(row);
            Split(Join(RowText(row), " ") + "\n", ' ') == w[..|w| - 1] + [w[|w| - 1] + "\n"]
  {
    var w := RowWords(row);
    var j := Join(w, " ");
    assert Split(j, ' ') == w by {
      RowWordsShort(row);
      forall i | 0 <= i < |w| ensures ' ' !in w[i] {
        WordAvoids(w[i]);
      }
      SplitJoin(w, ' ');
    }
    RowTextJoin(row);
    SplitExtendLast(j, "\n", ' ');
  }

  lemma LastValue()
    ensures |LineOne + LineTwo| == 30
    ensures (LineOne + LineTwo)[29] == "153"
    ensures (LineOne + LineTwo)[..29] == LineOne + LineTwo[..12]
  {
    assert LineTwo == LineTwo[..12] + ["153"];
  }
}
