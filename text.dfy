/** The pieces of Rust's `str`/`String` library that the canvas serialiser relies on:
    `join`, `split` on one separator, `trim`, and `{}` formatting of a whole number. */
module Text {

  /** Rust's `char::is_whitespace`: the Unicode White_Space property. */
  predicate IsWhitespace(c: char) {
    ('\t' <= c <= '\r') || c == ' ' || c == '\U{85}' || c == '\U{A0}' || c == '\U{1680}'
    || ('\U{2000}' <= c <= '\U{200A}') || c == '\U{2028}' || c == '\U{2029}'
    || c == '\U{202F}' || c == '\U{205F}' || c == '\U{3000}'
  }

  /** A non-empty run of characters none of which is white space. */
  predicate IsWord(w: string) {
    |w| > 0 && forall i :: 0 <= i < |w| ==> !IsWhitespace(w[i])
  }

  /** A word holds neither a space nor a newline. */
  lemma WordAvoids(w: string)
    requires IsWord(w)
    ensures ' ' !in w && '\n' !in w
  {
    assert IsWhitespace(' ') && IsWhitespace('\n');
  }

  // ---------------------------------------------------------------- join

  /** `parts.join(sep)`. */
  function Join(parts: seq<string>, sep: string): string
    decreases |parts|
  {
    if |parts| == 0 then ""
    else if |parts| == 1 then parts[0]
    else parts[0] + sep + Join(parts[1..], sep)
  }

  lemma {:induction false} JoinConcat(a: seq<string>, b: seq<string>, sep: string)
    requires |a| > 0 && |b| > 0
    ensures Join(a + b, sep) == Join(a, sep) + sep + Join(b, sep)
    decreases |a|
  {
    if |a| == 1 {
      assert (a + b)[1..] == b;
    } else {
      assert (a + b)[1..] == a[1..] + b;
      JoinConcat(a[1..], b, sep);
    }
  }

  lemma JoinSnoc(a: seq<string>, v: string, sep: string)
    requires |a| > 0
    ensures Join(a + [v], sep) == Join(a, sep) + sep + v
  {
    JoinConcat(a, [v], sep);
  }

  // ---------------------------------------------------------------- split

  /** `s.split(sep)`: the pieces between separators, so always at least one piece,
      none of which holds the separator (`JoinSplit` joins them back into `s`). */
  function Split(s: string, sep: char): (r: seq<string>)
    ensures |r| >= 1
    ensures forall i :: 0 <= i < |r| ==> sep !in r[i]
    decreases |s|
  {
    if |s| == 0 then [""]
    else
      var rest := Split(s[1..], sep);
      if s[0] == sep then [""] + rest
      else [[s[0]] + rest[0]] + rest[1..]
  }

  /** Joining the pieces of a split with the separator gives the text back. */
  lemma {:induction false} JoinSplit(s: string, sep: char)
    ensures Join(Split(s, sep), [sep]) == s
    decreases |s|
  {
    if |s| > 0 {
      var rest := Split(s[1..], sep);
      JoinSplit(s[1..], sep);
      var r := Split(s, sep);
      if s[0] == sep {
        assert r[1..] == rest;
      } else {
        assert |rest| > 1 ==> r[1..] == rest[1..] && Join(rest, [sep]) == rest[0] + [sep] + Join(rest[1..], [sep]);
      }
      assert s == [s[0]] + s[1..];
    }
  }

  lemma {:induction false} SplitNoSep(s: string, sep: char)
    requires sep !in s
    ensures Split(s, sep) == [s]
    decreases |s|
  {
    if |s| > 0 {
      SplitNoSep(s[1..], sep);
      assert s == [s[0]] + s[1..];
    }
  }

  /** A separator in the middle splits into the pieces of either side. */
  lemma {:induction false} SplitAppend(a: string, b: string, sep: char)
    ensures Split(a + [sep] + b, sep) == Split(a, sep) + Split(b, sep)
    decreases |a|
  {
    var s := a + [sep] + b;
    if |a| == 0 {
      assert s[1..] == b;
    } else {
      assert s[1..] == a[1..] + [sep] + b;
      SplitAppend(a[1..], b, sep);
    }
  }

  /** Text without a separator appended at the end extends the last piece. */
  lemma {:induction false} SplitExtendLast(a: string, b: string, sep: char)
    requires sep !in b
    ensures var p := Split(a, sep);
            Split(a + b, sep) == p[..|p| - 1] + [p[|p| - 1] + b]
    decreases |a|
  {
    if |a| == 0 {
      SplitNoSep(b, sep);
      assert a + b == b;
    } else {
      var p' := Split(a[1..], sep);
      assert (a + b)[1..] == a[1..] + b && (a + b)[0] == a[0];
      SplitExtendLast(a[1..], b, sep);
      SplitHead(a, sep);
      SplitHead(a + b, sep);
      if a[0] == sep {
        ExtendBehindEmpty(p', b);
      } else {
        ExtendBehindFirst(a[0], p', b);
      }
    }
  }

  /** One step of `Split`: the first character either ends the first piece or joins it. */
  lemma SplitHead(s: string, sep: char)
    requires |s| > 0
    ensures var r := Split(s[1..], sep);
            Split(s, sep) == if s[0] == sep then [""] + r else [[s[0]] + r[0]] + r[1..]
  {
  }

  lemma ExtendBehindEmpty(p: seq<string>, b: string)
    requires |p| > 0
    ensures var q := [""] + p;
            [""] + (p[..|p| - 1] + [p[|p| - 1] + b]) == q[..|q| - 1] + [q[|q| - 1] + b]
  {
  }

  lemma ExtendBehindFirst(c: char, p: seq<string>, b: string)
    requires |p| > 0
    ensures var e := p[..|p| - 1] + [p[|p| - 1] + b];
            var q := [[c] + p[0]] + p[1..];
            [[c] + e[0]] + e[1..] == q[..|q| - 1] + [q[|q| - 1] + b]
  {
    var e := p[..|p| - 1] + [p[|p| - 1] + b];
    if |p| == 1 {
      assert e == [p[0] + b];
      assert [c] + (p[0] + b) == ([c] + p[0]) + b;
    } else {
      assert e[0] == p[0];
      assert e[1..] == p[1..|p| - 1] + [p[|p| - 1] + b];
    }
  }

  /** A separator-free first line splits off as the first piece. */
  lemma SplitCons(a: string, rest: string, sep: char)
    requires sep !in a
    ensures Split(a + [sep] + rest, sep) == [a] + Split(rest, sep)
  {
    SplitAppend(a, rest, sep);
    SplitNoSep(a, sep);
  }

  lemma SplitTwo(a: string, b: string, sep: char)
    requires sep !in a && sep !in b
    ensures Split(a + [sep] + b, sep) == [a, b]
  {
    SplitCons(a, b, sep);
    SplitNoSep(b, sep);
  }

  /** Three separator-free lines, each ending in the separator. */
  lemma SplitThreeLines(a: string, b: string, c: string, sep: char)
    requires sep !in a && sep !in b && sep !in c
    ensures Split(a + [sep] + b + [sep] + c + [sep], sep) == [a, b, c, ""]
  {
    var r2 := c + [sep];
    var r1 := b + [sep] + r2;
    assert a + [sep] + b + [sep] + c + [sep] == a + [sep] + r1;
    SplitLastLine(c, sep);
    SplitCons(b, r2, sep);
    SplitCons(a, r1, sep);
  }

  lemma SplitLastLine(c: string, sep: char)
    requires sep !in c
    ensures Split(c + [sep], sep) == [c, ""]
  {
    SplitCons(c, "", sep);
    assert c + [sep] + "" == c + [sep];
  }

  /** Joining pieces that hold no separator and splitting again gives the pieces back. */
  lemma {:induction false} SplitJoin(parts: seq<string>, sep: char)
    requires |parts| > 0
    requires forall i :: 0 <= i < |parts| ==> sep !in parts[i]
    ensures Split(Join(parts, [sep]), sep) == parts
    decreases |parts|
  {
    if |parts| == 1 {
      SplitNoSep(parts[0], sep);
    } else {
      SplitJoin(parts[1..], sep);
      SplitAppend(parts[0], Join(parts[1..], [sep]), sep);
      SplitNoSep(parts[0], sep);
      assert parts == [parts[0]] + parts[1..];
    }
  }

  // ---------------------------------------------------------------- flatten

  function Flatten<T>(ss: seq<seq<T>>): seq<T>
    decreases |ss|
  {
    if |ss| == 0 then [] else ss[0] + Flatten(ss[1..])
  }

  lemma {:induction false} FlattenConcat<T>(a: seq<seq<T>>, b: seq<seq<T>>)
    ensures Flatten(a + b) == Flatten(a) + Flatten(b)
    decreases |a|
  {
    if |a| > 0 {
      assert (a + b)[1..] == a[1..] + b;
      FlattenConcat(a[1..], b);
    } else {
      assert a + b == b;
    }
  }

  lemma FlattenSingle<T>(s: seq<T>)
    ensures Flatten([s]) == s
  {
    assert [s][1..] == [];
  }

  lemma FlattenSnocExtend<T>(init: seq<seq<T>>, last: seq<T>, v: T)
    ensures Flatten(init + [last + [v]]) == Flatten(init + [last]) + [v]
  {
    FlattenConcat(init, [last + [v]]);
    FlattenSingle(last + [v]);
    FlattenConcat(init, [last]);
    FlattenSingle(last);
  }

  // ---------------------------------------------------------------- trim

  function TrimStart(s: string): string
    decreases |s|
  {
    if |s| > 0 && IsWhitespace(s[0]) then TrimStart(s[1..]) else s
  }

  function TrimEnd(s: string): string
    decreases |s|
  {
    if |s| > 0 && IsWhitespace(s[|s| - 1]) then TrimEnd(s[..|s| - 1]) else s
  }

  /** `s.trim()`: drops leading and trailing white space. */
  function Trim(s: string): string {
    TrimEnd(TrimStart(s))
  }

  /** Trimming a space-led join of words drops only the leading space. */
  lemma TrimLeadingSpace(s: string, lead: bool)
    requires |s| > 0 && !IsWhitespace(s[0]) && !IsWhitespace(s[|s| - 1])
    ensures Trim((if lead then " " else "") + s) == s
  {
    if lead {
      assert (" " + s)[1..] == s;
      assert TrimStart(" " + s) == TrimStart(s);
    }
    assert TrimStart(s) == s;
    assert TrimEnd(s) == s;
  }

  // ---------------------------------------------------------------- decimal

  function DigitChar(d: nat): (c: char)
    requires d < 10
    ensures '0' <= c <= '9' && (c as int) - ('0' as int) == d
  {
    (48 + d) as char
  }

  function DigitValue(c: char): nat {
    if '0' <= c <= '9' then (c as int) - ('0' as int) else 0
  }

  /** The value of a string of decimal digits, most significant first. */
  function DecValue(s: string): nat
    decreases |s|
  {
    if |s| == 0 then 0 else 10 * DecValue(s[..|s| - 1]) + DigitValue(s[|s| - 1])
  }

  /** `format!("{}", n)` for a whole number: its decimal digits, with no leading zero
      unless the number is 0, which read back as `n`. */
  function Dec(n: nat): (s: string)
    ensures |s| >= 1
    ensures forall i :: 0 <= i < |s| ==> '0' <= s[i] <= '9'
    ensures |s| == 1 || s[0] != '0'
    ensures DecValue(s) == n
    decreases n
  {
    if n < 10 then [DigitChar(n)]
    else
      var s := Dec(n / 10) + [DigitChar(n % 10)];
      assert s[..|s| - 1] == Dec(n / 10);
      s
  }

  lemma DecIsWord(n: nat)
    ensures IsWord(Dec(n))
  {
  }

  lemma DecLength(n: nat)
    requires n < 1000
    ensures |Dec(n)| <= 3
  {
    if n >= 10 {
      assert |Dec(n / 10)| <= 2 by {
        if n / 10 >= 10 {
          assert |Dec(n / 100)| == 1;
        }
      }
    }
  }

  /** A two-digit number is its tens and units digits. */
  lemma DecTwoDigits(n: nat, s: string)
    requires 10 <= n < 100 && |s| == 2
    requires s[0] == DigitChar(n / 10) && s[1] == DigitChar(n % 10)
    ensures Dec(n) == s
  {
    assert Dec(n / 10) == [s[0]];
    assert Dec(n) == Dec(n / 10) + [DigitChar(n % 10)];
  }

  /** A three-digit number is its hundreds, tens and units digits. */
  lemma DecThreeDigits(n: nat, s: string)
    requires 100 <= n < 1000 && |s| == 3
    requires s[0] == DigitChar(n / 100) && s[1] == DigitChar(n / 10 % 10) && s[2] == DigitChar(n % 10)
    ensures Dec(n) == s
  {
    var t := n / 10;
    assert 10 <= t < 100 && t / 10 == n / 100 && t % 10 == n / 10 % 10;
    assert Dec(t / 10) == [s[0]];
    assert Dec(t) == Dec(t / 10) + [DigitChar(t % 10)];
    assert Dec(n) == Dec(t) + [DigitChar(n % 10)];
  }
}
