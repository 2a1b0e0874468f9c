/** What the PPM serialiser promises about its text: every line is at most `MaxLine`
    characters long, every row ends with a newline, and cutting the text at newlines
    and then at spaces gives back the pixels' display values, in order. */
module CanvasLayout {
  import opened Text
  import opened Colors
  import opened Ppm

  // ---------------------------------------------------------------- reading the output

  /** Each line cut at its spaces, the pieces in order. */
  ghost function SplitEach(lines: seq<string>): seq<string>
    decreases |lines|
  {
    if |lines| == 0 then [] else Split(lines[0], ' ') + SplitEach(lines[1..])
  }

  /** The words of a text: cut at newlines, drop what follows the last newline, then
      cut every line at its spaces. */
  ghost function LineWords(out: string): seq<string> {
    var lines := Split(out, '\n');
    SplitEach(lines[..|lines| - 1])
  }

  /** No line of `out` is longer than `limit`. */
  ghost predicate LinesWithin(out: string, limit: nat) {
    var lines := Split(out, '\n');
    forall k :: 0 <= k < |lines| ==> |lines[k]| <= limit
  }

  ghost predicate EndsWithNewline(out: string) {
    |out| > 0 && out[|out| - 1] == '\n'
  }

  /** Words no longer than `MaxLine - 1`, so that each fits on a line of its own. */
  ghost predicate ShortWords(t: seq<string>) {
    forall i :: 0 <= i < |t| ==> IsWord(t[i]) && |t[i]| < MaxLine
  }

  // ---------------------------------------------------------------- lines as groups of words

  /** The leading space that line `k` carries while it is being packed: only the
      first line of a row has one. */
  function Lead(k: nat): nat {
    if k == 0 then 1 else 0
  }

  /** Groups of words laid out one group per line, each line ending in a newline. */
  ghost function Render(groups: seq<seq<string>>): string
    decreases |groups|
  {
    if |groups| == 0 then "" else Join(groups[0], " ") + "\n" + Render(groups[1..])
  }

  ghost function LinesOf(groups: seq<seq<string>>): seq<string> {
    seq(|groups|, k requires 0 <= k < |groups| => Join(groups[k], " "))
  }

  /** Every group is a non-empty run of words, and its line, with the packing's leading
      space on the first line, fits in `MaxLine`. */
  ghost predicate GroupsFit(groups: seq<seq<string>>) {
    forall k :: 0 <= k < |groups| ==>
      && |groups[k]| > 0
      && (forall i :: 0 <= i < |groups[k]| ==> IsWord(groups[k][i]))
      && Lead(k) + |Join(groups[k], " ")| <= MaxLine
  }

  /** The packing loop's state lays out `groups`: the finished lines are all groups
      but the last, rendered, and the line being filled is the last group, with the
      first line's leading space while it is still the first. */
  ghost predicate PackedAs(st: PackState, groups: seq<seq<string>>) {
    && |groups| > 0
    && GroupsFit(groups)
    && st.formatted == Render(groups[..|groups| - 1])
    && st.prev == (if |groups| == 1 then " " else "") + Join(groups[|groups| - 1], " ")
  }

  // ---------------------------------------------------------------- helper facts

  lemma {:induction false} RenderSnoc(groups: seq<seq<string>>, g: seq<string>)
    ensures Render(groups + [g]) == Render(groups) + Join(g, " ") + "\n"
    decreases |groups|
  {
    if |groups| == 0 {
      assert ([g])[1..] == [];
    } else {
      assert (groups + [g])[1..] == groups[1..] + [g];
      RenderSnoc(groups[1..], g);
    }
  }

  lemma {:induction false} JoinAvoids(parts: seq<string>, sep: string, c: char)
    requires c !in sep
    requires forall i :: 0 <= i < |parts| ==> c !in parts[i]
    ensures c !in Join(parts, sep)
    decreases |parts|
  {
    if |parts| > 1 {
      JoinAvoids(parts[1..], sep, c);
    }
  }

  /** A space-joined run of words starts and ends with a word character. */
  lemma {:induction false} JoinWordsEnds(g: seq<string>)
    requires |g| > 0
    requires forall i :: 0 <= i < |g| ==> IsWord(g[i])
    ensures var j := Join(g, " ");
            |j| > 0 && !IsWhitespace(j[0]) && !IsWhitespace(j[|j| - 1])
    decreases |g|
  {
    if |g| > 1 {
      JoinWordsEnds(g[1..]);
    }
  }

  lemma {:induction false} RenderLines(groups: seq<seq<string>>)
    requires forall k :: 0 <= k < |groups| ==> forall i :: 0 <= i < |groups[k]| ==> IsWord(groups[k][i])
    ensures Split(Render(groups), '\n') == LinesOf(groups) + [""]
    decreases |groups|
  {
    if |groups| == 0 {
    } else {
      RenderLines(groups[1..]);
      forall i | 0 <= i < |groups[0]| ensures '\n' !in groups[0][i] {
        WordAvoids(groups[0][i]);
      }
      JoinAvoids(groups[0], " ", '\n');
      SplitCons(Join(groups[0], " "), Render(groups[1..]), '\n');
      assert LinesOf(groups) == [Join(groups[0], " ")] + LinesOf(groups[1..]);
    }
  }

  lemma {:induction false} SplitEachLines(groups: seq<seq<string>>)
    requires forall k :: 0 <= k < |groups| ==>
      |groups[k]| > 0 && forall i :: 0 <= i < |groups[k]| ==> IsWord(groups[k][i])
    ensures SplitEach(LinesOf(groups)) == Flatten(groups)
    decreases |groups|
  {
    if |groups| > 0 {
      SplitEachLines(groups[1..]);
      assert LinesOf(groups)[1..] == LinesOf(groups[1..]);
      forall i | 0 <= i < |groups[0]| ensures ' ' !in groups[0][i] {
        WordAvoids(groups[0][i]);
      }
      SplitJoin(groups[0], ' ');
    }
  }

  lemma {:induction false} SplitEachConcat(a: seq<string>, b: seq<string>)
    ensures SplitEach(a + b) == SplitEach(a) + SplitEach(b)
    decreases |a|
  {
    if |a| == 0 {
      assert a + b == b;
    } else {
      assert (a + b)[1..] == a[1..] + b;
      SplitEachConcat(a[1..], b);
    }
  }

  lemma FlattenAddGroup(groups: seq<seq<string>>, v: string)
    ensures Flatten(groups + [[v]]) == Flatten(groups) + [v]
  {
    FlattenConcat(groups, [[v]]);
    FlattenSingle([v]);
  }

  /** Trimming the current line drops only its leading space. */
  lemma TrimCurrentLine(st: PackState, groups: seq<seq<string>>)
    requires PackedAs(st, groups)
    ensures Trim(st.prev) == Join(groups[|groups| - 1], " ")
    ensures st.formatted + Trim(st.prev) + "\n" == Render(groups)
  {
    var m := |groups|;
    var init, last := groups[..m - 1], groups[m - 1];
    assert init + [last] == groups;
    PackedParts(st, init, last);
    TrimLine(st.prev, last, m == 1);
    RenderSnoc(init, last);
  }

  lemma TrimLine(prev: string, g: seq<string>, first: bool)
    requires |g| > 0 && forall i :: 0 <= i < |g| ==> IsWord(g[i])
    requires prev == (if first then " " else "") + Join(g, " ")
    ensures Trim(prev) == Join(g, " ")
  {
    JoinWordsEnds(g);
    TrimLeadingSpace(Join(g, " "), first);
  }

  // ---------------------------------------------------------------- the greedy packing

  lemma PackFirst(v: string)
    requires IsWord(v) && |v| < MaxLine
    ensures PackedAs(PackStep(PackState("", ""), v), [[v]])
  {
  }

  /** The word does not fit: the current line is finished and the word starts a new one. */
  lemma PackFlush(st: PackState, groups: seq<seq<string>>, v: string)
    requires PackedAs(st, groups) && IsWord(v) && |v| < MaxLine
    requires |st.prev + " " + v| > MaxLine
    ensures PackStep(st, v) == PackState(Render(groups), v)
    ensures PackedAs(PackStep(st, v), groups + [[v]])
  {
    TrimCurrentLine(st, groups);
    var gs := groups + [[v]];
    assert gs[..|gs| - 1] == groups;
  }

  /** A word added to the last group keeps every group within `MaxLine` when the
      lengthened line still fits. */
  lemma GroupsFitExtend(init: seq<seq<string>>, last: seq<string>, v: string)
    requires GroupsFit(init + [last]) && IsWord(v)
    requires Lead(|init|) + |Join(last + [v], " ")| <= MaxLine
    ensures GroupsFit(init + [last + [v]])
  {
    var gs, gs' := init + [last], init + [last + [v]];
    assert forall k :: 0 <= k < |init| ==> gs'[k] == gs[k];
    assert gs[|init|] == last;
  }

  /** The word fits: it joins the current line after a space. */
  lemma PackExtend(st: PackState, init: seq<seq<string>>, last: seq<string>, v: string)
    requires PackedAs(st, init + [last]) && IsWord(v)
    requires |st.prev + " " + v| <= MaxLine
    ensures PackedAs(PackStep(st, v), init + [last + [v]])
  {
    var gs, gs' := init + [last], init + [last + [v]];
    assert gs[..|gs| - 1] == init && gs[|gs| - 1] == last;
    assert gs'[..|gs'| - 1] == init && gs'[|gs'| - 1] == last + [v];
    assert |last| > 0 by { assert gs[|init|] == last; }
    JoinSnoc(last, v, " ");
    GroupsFitExtend(init, last, v);
  }

  /** The packing loop's state after a run of short words lays out a grouping of
      exactly those words, in order. */
  lemma {:induction false} PackGroups(t: seq<string>) returns (groups: seq<seq<string>>)
    requires |t| > 0 && ShortWords(t)
    ensures PackedAs(Pack(t), groups) && Flatten(groups) == t
    decreases |t|
  {
    var t' := t[..|t| - 1];
    var v := t[|t| - 1];
    assert t == t' + [v];
    if |t'| == 0 {
      assert Pack(t') == PackState("", "");
      PackFirst(v);
      groups := [[v]];
      FlattenAddGroup([], v);
    } else {
      var gs := PackGroups(t');
      var st := Pack(t');
      if |st.prev + " " + v| > MaxLine {
        PackFlush(st, gs, v);
        groups := gs + [[v]];
        FlattenAddGroup(gs, v);
      } else {
        var init, last := gs[..|gs| - 1], gs[|gs| - 1];
        assert init + [last] == gs;
        PackExtend(st, init, last, v);
        groups := init + [last + [v]];
        FlattenSnocExtend(init, last, v);
      }
    }
  }

  /** The row's last token, which carries the newline, does not fit: it goes on a line
      of its own. */
  lemma FinishFlush(st: PackState, groups: seq<seq<string>>, w: string)
    requires PackedAs(st, groups) && IsWord(w) && |w| < MaxLine
    requires |st.prev + " " + (w + "\n")| > MaxLine
    ensures var fin := PackStep(st, w + "\n");
            fin.formatted + fin.prev == Render(groups + [[w]])
    ensures GroupsFit(groups + [[w]])
  {
    TrimCurrentLine(st, groups);
    RenderSnoc(groups, [w]);
  }

  /** The row's last token fits: it ends the current line, which cannot be the first. */
  lemma FinishExtend(st: PackState, init: seq<seq<string>>, last: seq<string>, w: string)
    requires PackedAs(st, init + [last]) && IsWord(w) && |init| > 0
    requires |st.prev + " " + (w + "\n")| <= MaxLine
    ensures var fin := PackStep(st, w + "\n");
            fin.formatted + fin.prev == Render(init + [last + [w]])
    ensures GroupsFit(init + [last + [w]])
  {
    PackedParts(st, init, last);
    FinishLine(st, init, last, w);
    GroupsFitExtend(init, last, w);
  }

  lemma FinishLine(st: PackState, init: seq<seq<string>>, last: seq<string>, w: string)
    requires |last| > 0 && st.formatted == Render(init) && st.prev == Join(last, " ")
    requires |st.prev + " " + (w + "\n")| <= MaxLine
    ensures var fin := PackStep(st, w + "\n");
            fin.formatted + fin.prev == Render(init + [last + [w]])
    ensures |Join(last + [w], " ")| < MaxLine
  {
    FitStep(st, w + "\n");
    JoinSnoc(last, w, " ");
    assert st.prev + " " + (w + "\n") == Join(last + [w], " ") + "\n";
    RenderSnoc(init, last + [w]);
  }

  /** A token that fits joins the current line after a space. */
  lemma FitStep(st: PackState, v: string)
    requires |st.prev + " " + v| <= MaxLine
    ensures PackStep(st, v) == PackState(st.formatted, st.prev + " " + v)
  {
  }

  /** The parts of a packing state that lays out `init + [last]`. */
  lemma PackedParts(st: PackState, init: seq<seq<string>>, last: seq<string>)
    requires PackedAs(st, init + [last])
    ensures |last| > 0 && GroupsFit(init + [last])
    ensures forall i :: 0 <= i < |last| ==> IsWord(last[i])
    ensures st.formatted == Render(init)
    ensures st.prev == (if |init| == 0 then " " else "") + Join(last, " ")
    ensures |init| > 0 ==> st.prev == Join(last, " ")
  {
    var gs := init + [last];
    assert gs[..|gs| - 1] == init && gs[|gs| - 1] == last;
    assert |last| > 0 by { assert gs[|init|] == last; }
    if |init| > 0 {
      assert "" + Join(last, " ") == Join(last, " ");
    }
  }

  /** While the packing is still on the row's first line, that line holds every word so
      far behind the leading space. */
  lemma FirstLineLength(st: PackState, gs: seq<seq<string>>, t: seq<string>, w: string)
    requires PackedAs(st, gs) && |gs| == 1 && Flatten(gs) == t && |t| > 0
    ensures |st.prev + " " + (w + "\n")| == |Join(t + [w], " ")| + 2
  {
    assert gs == [gs[0]];
    FlattenSingle(gs[0]);
    JoinSnoc(t, w, " ");
  }

  /** A row of short words is laid out as groups, one per line, in order; the last word
      keeps the newline the row text ends with. */
  lemma RowGroups(vec: seq<string>) returns (groups: seq<seq<string>>)
    requires ShortWords(Split(Join(vec, " "), ' '))
    ensures |groups| > 0 && GroupsFit(groups)
    ensures Flatten(groups) == Split(Join(vec, " "), ' ')
    ensures FormatRow(vec) == Render(groups)
  {
    var joined := Join(vec, " ");
    var words := Split(joined, ' ');
    var n := |words|;
    JoinSplit(joined, ' ');
    var row := joined + "\n";
    if |row| <= MaxLine {
      groups := [words];
      assert Render(groups) == Join(words, " ") + "\n" + Render([]);
      assert Flatten(groups) == words + Flatten([]);
    } else {
      var t := words[..n - 1];
      var w := words[n - 1];
      assert words == t + [w];
      assert n == 1 ==> joined == w;
      SplitExtendLast(joined, "\n", ' ');
      var tokens := Split(row, ' ');
      assert tokens == t + [w + "\n"];
      PackSnoc(t, w + "\n");
      groups := WrappedRowGroups(t, w);
    }
  }

  lemma PackSnoc(t: seq<string>, v: string)
    ensures Pack(t + [v]) == PackStep(Pack(t), v)
  {
    assert (t + [v])[..|t|] == t;
  }

  /** A row too long for one line: the packing of all words but the last, finished by
      the last word with the row's newline. */
  lemma WrappedRowGroups(t: seq<string>, w: string) returns (groups: seq<seq<string>>)
    requires |t| > 0 && ShortWords(t + [w])
    requires |Join(t + [w], " ") + "\n"| > MaxLine
    ensures |groups| > 0 && GroupsFit(groups)
    ensures Flatten(groups) == t + [w]
    ensures var fin := PackStep(Pack(t), w + "\n");
            fin.formatted + fin.prev == Render(groups)
  {
    assert ShortWords(t) && IsWord(w) && |w| < MaxLine by {
      assert forall i :: 0 <= i < |t| ==> t[i] == (t + [w])[i];
      assert w == (t + [w])[|t|];
    }
    var gs := PackGroups(t);
    var st := Pack(t);
    if |gs| == 1 {
      FirstLineLength(st, gs, t, w);
    }
    if |st.prev + " " + (w + "\n")| > MaxLine {
      FinishFlush(st, gs, w);
      groups := gs + [[w]];
      FlattenAddGroup(gs, w);
    } else {
      var init, last := gs[..|gs| - 1], gs[|gs| - 1];
      assert init + [last] == gs;
      FinishExtend(st, init, last, w);
      groups := init + [last + [w]];
      FlattenSnocExtend(init, last, w);
    }
  }

  lemma RenderEndsWithNewline(groups: seq<seq<string>>)
    requires |groups| > 0
    ensures EndsWithNewline(Render(groups))
  {
    var init, last := groups[..|groups| - 1], groups[|groups| - 1];
    assert init + [last] == groups;
    RenderSnoc(init, last);
  }

  /** The lines of laid-out groups that fit: none longer than `MaxLine`, the first
      shorter. */
  lemma RenderLinesWithin(groups: seq<seq<string>>)
    requires |groups| > 0 && GroupsFit(groups)
    ensures LinesWithin(Render(groups), MaxLine)
    ensures |Split(Render(groups), '\n')[0]| < MaxLine
  {
    RenderLines(groups);
    var lines := Split(Render(groups), '\n');
    assert forall k :: 0 <= k < |groups| ==> lines[k] == Join(groups[k], " ");
    assert lines[|groups|] == "";
  }

  /** Cutting laid-out groups at newlines and spaces gives back their words. */
  lemma RenderWords(groups: seq<seq<string>>)
    requires GroupsFit(groups)
    ensures LineWords(Render(groups)) == Flatten(groups)
  {
    RenderLines(groups);
    var lines := Split(Render(groups), '\n');
    assert lines[..|lines| - 1] == LinesOf(groups);
    SplitEachLines(groups);
  }

  /** `format_vector` on a row of short words: the text ends with a newline, no line is
      longer than `MaxLine` (the first at most `MaxLine - 1`), and cutting it at newlines
      and spaces gives back the row's words in order. */
  lemma RowLayout(vec: seq<string>)
    requires ShortWords(Split(Join(vec, " "), ' '))
    ensures EndsWithNewline(FormatRow(vec))
    ensures LinesWithin(FormatRow(vec), MaxLine)
    ensures |Split(FormatRow(vec), '\n')[0]| < MaxLine
    ensures LineWords(FormatRow(vec)) == Split(Join(vec, " "), ' ')
  {
    var groups := RowGroups(vec);
    RenderEndsWithNewline(groups);
    RenderLinesWithin(groups);
    RenderWords(groups);
  }

  /** A row whose text, newline included, fits in `MaxLine` comes out unchanged; an
      empty row is a lone newline. */
  lemma ShortRowUnchanged(vec: seq<string>)
    requires |Join(vec, " ")| < MaxLine
    ensures FormatRow(vec) == Join(vec, " ") + "\n"
    ensures vec == [] ==> FormatRow(vec) == "\n"
  {
  }

  // ---------------------------------------------------------------- rows of pixels and the body

  /** The display values of a row's pixels, three per pixel, left pixel first. */
  ghost function RowWords(row: seq<Color>): seq<string>
    decreases |row|
  {
    if |row| == 0 then [] else RowWords(row[..|row| - 1]) + PixelWords(row[|row| - 1])
  }

  /** The display values of a grid, top row first. */
  ghost function BodyWords(pixels: seq<seq<Color>>): seq<string>
    decreases |pixels|
  {
    if |pixels| == 0 then [] else BodyWords(pixels[..|pixels| - 1]) + RowWords(pixels[|pixels| - 1])
  }

  lemma {:induction false} RowWordsShort(row: seq<Color>)
    ensures |RowWords(row)| == 3 * |row|
    ensures ShortWords(RowWords(row))
    decreases |row|
  {
    if |row| > 0 {
      var rw, pw := RowWords(row[..|row| - 1]), PixelWords(row[|row| - 1]);
      RowWordsShort(row[..|row| - 1]);
      assert RowWords(row) == rw + pw;
      assert ShortWords(pw);
    }
  }

  /** Word `3 * x + i` of a row is channel `i` of pixel `x`. */
  lemma RowWordsAt(row: seq<Color>)
    ensures |RowWords(row)| == 3 * |row|
    ensures forall x, i :: 0 <= x < |row| && 0 <= i < 3 ==>
              RowWords(row)[3 * x + i] == PixelWords(row[x])[i]
  {
    RowWordsShort(row);
    forall x, i | 0 <= x < |row| && 0 <= i < 3
      ensures RowWords(row)[3 * x + i] == PixelWords(row[x])[i]
    {
      RowWordAt(row, x, i);
    }
  }

  lemma {:induction false} RowWordAt(row: seq<Color>, x: nat, i: nat)
    requires x < |row| && i < 3
    ensures 3 * x + i < |RowWords(row)| && RowWords(row)[3 * x + i] == PixelWords(row[x])[i]
    decreases |row|
  {
    var n := |row|;
    var init := row[..n - 1];
    var rw, pw := RowWords(init), PixelWords(row[n - 1]);
    RowWordsShort(init);
    assert RowWords(row) == rw + pw;
    if x < n - 1 {
      RowWordAt(init, x, i);
      assert row[x] == init[x];
      TripleIndex(rw, pw, n - 1, x, i, PixelWords(init[x])[i]);
    } else {
      TripleIndex(rw, pw, n - 1, x, i, pw[i]);
    }
  }

  /** Entry `3 * x + i` of `m` triples followed by one more. */
  lemma TripleIndex(rw: seq<string>, pw: seq<string>, m: nat, x: nat, i: nat, v: string)
    requires |rw| == 3 * m && |pw| == 3 && x <= m && i < 3
    requires x < m ==> rw[3 * x + i] == v
    requires x == m ==> pw[i] == v
    ensures (rw + pw)[3 * x + i] == v
  {
  }

  lemma RowTextSnoc(init: seq<Color>, c: Color)
    ensures RowText(init + [c]) == RowText(init) + [PixelText(c)]
  {
    var r, t := init + [c], RowText(init) + [PixelText(c)];
    assert |RowText(r)| == |t| == |r|;
    forall x | 0 <= x < |r| ensures RowText(r)[x] == t[x] {
      if x < |init| {
        assert r[x] == init[x] && t[x] == RowText(init)[x];
      } else {
        assert r[x] == c && t[x] == PixelText(c);
      }
    }
  }

  /** A row's pixel strings joined by spaces are its display values joined by spaces. */
  lemma {:induction false} RowTextJoin(row: seq<Color>)
    requires |row| > 0
    ensures Join(RowText(row), " ") == Join(RowWords(row), " ")
    decreases |row|
  {
    var n := |row|;
    var init, c := row[..n - 1], row[n - 1];
    RowTextSnoc(init, c);
    PixelTextWords(c);
    assert init + [c] == row;
    if n == 1 {
      assert RowWords(row) == PixelWords(c);
      assert RowText(init) == [];
    } else {
      RowTextJoin(init);
      RowWordsShort(init);
      JoinSnoc(RowText(init), PixelText(c), " ");
      JoinConcat(RowWords(init), PixelWords(c), " ");
    }
  }

  /** One row of a canvas at least one pixel wide, as `format_vector` writes it. */
  lemma RowFormat(row: seq<Color>)
    requires |row| > 0
    ensures EndsWithNewline(FormatRow(RowText(row)))
    ensures LinesWithin(FormatRow(RowText(row)), MaxLine)
    ensures LineWords(FormatRow(RowText(row))) == RowWords(row)
  {
    var words := RowWords(row);
    RowTextJoin(row);
    RowWordsShort(row);
    forall i | 0 <= i < |words| ensures ' ' !in words[i] {
      WordAvoids(words[i]);
    }
    SplitJoin(words, ' ');
    RowLayout(RowText(row));
  }

  /** A row of a canvas with no columns is a lone newline. */
  lemma EmptyRowFormat(row: seq<Color>)
    requires |row| == 0
    ensures FormatRow(RowText(row)) == "\n"
  {
    assert RowText(row) == [];
  }

  lemma SplitAfterNewline(a: string, b: string)
    requires a == "" || EndsWithNewline(a)
    ensures var la := Split(a, '\n');
            Split(a + b, '\n') == la[..|la| - 1] + Split(b, '\n')
  {
    if a == "" {
      assert a + b == b;
    } else {
      var a' := a[..|a| - 1];
      assert a == a' + ['\n'] + "";
      assert a + b == a' + ['\n'] + b;
      SplitAppend(a', b, '\n');
      SplitAppend(a', "", '\n');
      var l := Split(a', '\n');
      assert (l + [""])[..|l|] == l;
    }
  }

  /** Text that ends a line followed by more text: the words of the whole are those of
      the parts. */
  lemma {:induction false} LineWordsConcat(a: string, b: string)
    requires a == "" || EndsWithNewline(a)
    ensures LineWords(a + b) == LineWords(a) + LineWords(b)
  {
    var la, lb := Split(a, '\n'), Split(b, '\n');
    var p, q := la[..|la| - 1], lb[..|lb| - 1];
    assert LineWords(a) == SplitEach(p) by {
      LineWordsOf(a, la);
    }
    assert LineWords(b) == SplitEach(q) by {
      LineWordsOf(b, lb);
    }
    assert LineWords(a + b) == SplitEach((p + lb)[..|p + lb| - 1]) by {
      SplitAfterNewline(a, b);
      LineWordsOf(a + b, p + lb);
    }
    SplitEachDropLast(p, lb);
  }

  lemma LineWordsOf(x: string, lines: seq<string>)
    requires Split(x, '\n') == lines
    ensures LineWords(x) == SplitEach(lines[..|lines| - 1])
  {
  }

  lemma SplitEachDropLast(p: seq<string>, q: seq<string>)
    requires |q| > 0
    ensures SplitEach((p + q)[..|p + q| - 1]) == SplitEach(p) + SplitEach(q[..|q| - 1])
  {
    DropLastConcat(p, q);
    SplitEachConcat(p, q[..|q| - 1]);
  }

  lemma DropLastConcat<T>(p: seq<T>, q: seq<T>)
    requires |q| > 0
    ensures (p + q)[..|p + q| - 1] == p + q[..|q| - 1]
  {
  }

  /** Text that ends a line followed by more text: each line of the whole is a line of
      one part. */
  lemma LinesWithinConcat(a: string, b: string)
    requires a == "" || EndsWithNewline(a)
    requires LinesWithin(a, MaxLine) && LinesWithin(b, MaxLine)
    ensures LinesWithin(a + b, MaxLine)
  {
    SplitAfterNewline(a, b);
    var la, lb := Split(a, '\n'), Split(b, '\n');
    ShortLinesConcat(la[..|la| - 1], lb);
  }

  lemma ShortLinesConcat(p: seq<string>, q: seq<string>)
    requires forall k :: 0 <= k < |p| ==> |p[k]| <= MaxLine
    requires forall k :: 0 <= k < |q| ==> |q[k]| <= MaxLine
    ensures forall k :: 0 <= k < |p + q| ==> |(p + q)[k]| <= MaxLine
  {
    forall k | 0 <= k < |p + q| ensures |(p + q)[k]| <= MaxLine {
      if k < |p| {
        assert (p + q)[k] == p[k];
      } else {
        assert (p + q)[k] == q[k - |p|];
      }
    }
  }

  /** `format_ppm_data` on a canvas at least one pixel wide: the text ends with a
      newline (unless there are no rows), no line is longer than `MaxLine`, and cutting
      it at newlines and spaces gives every pixel's display values, row by row. */
  lemma {:induction false} BodyLayout(pixels: seq<seq<Color>>, width: nat)
    requires width > 0 && IsGrid(pixels, width, |pixels|)
    ensures |pixels| == 0 <==> PpmData(pixels) == ""
    ensures |pixels| > 0 ==> EndsWithNewline(PpmData(pixels))
    ensures LinesWithin(PpmData(pixels), MaxLine)
    ensures LineWords(PpmData(pixels)) == BodyWords(pixels)
    decreases |pixels|
  {
    if |pixels| == 0 {
      assert Split("", '\n') == [""];
    } else {
      var init, row := pixels[..|pixels| - 1], pixels[|pixels| - 1];
      BodyLayout(init, width);
      RowFormat(row);
      LineWordsConcat(PpmData(init), FormatRow(RowText(row)));
      LinesWithinConcat(PpmData(init), FormatRow(RowText(row)));
    }
  }

  /** `format_ppm_data` on a canvas with no columns: one newline per row. */
  lemma {:induction false} EmptyRowsLayout(pixels: seq<seq<Color>>)
    requires IsGrid(pixels, 0, |pixels|)
    ensures PpmData(pixels) == seq(|pixels|, _ => '\n')
    decreases |pixels|
  {
    if |pixels| > 0 {
      EmptyRowsLayout(pixels[..|pixels| - 1]);
      EmptyRowFormat(pixels[|pixels| - 1]);
    }
  }
}
