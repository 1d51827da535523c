/** The text SavePPM (image.go) writes: a plain Netpbm "P3" file whose
    header gives `height` as the column count and `width` as the row count,
    followed by one line per y from the top, each holding the triples
    "r g b " of img[x][width - 1 - y] for x in order (the rows are flipped
    vertically). A decoder recovers the buffer from the text. */
module Ppm {
  import opened Wrappers
  import opened Raster

  /* Decimal text of ints, as fmt's %d writes it. */

  predicate IsDigit(c: char)
  {
    '0' <= c <= '9'
  }

  predicate AllDigits(s: string)
  {
    forall i :: 0 <= i < |s| ==> IsDigit(s[i])
  }

  function DigitChar(d: nat): (c: char)
    requires d < 10
    ensures IsDigit(c) && c as int - '0' as int == d
  {
    (48 + d) as char
  }

  function NatToString(n: nat): (s: string)
    ensures |s| > 0 && AllDigits(s)
    decreases n
  {
    if n < 10 then [DigitChar(n)] else NatToString(n / 10) + [DigitChar(n % 10)]
  }

  /** Go's %d of an int: a minus sign exactly for negative values, then the
      decimal digits of the magnitude. */
  function IntToString(i: int): (s: string)
    ensures |s| > 0
    ensures s[0] == '-' <==> i < 0
    ensures i < 0 ==> |s| > 1 && AllDigits(s[1..])
    ensures i >= 0 ==> AllDigits(s)
  {
    if i < 0 then "-" + NatToString(-i) else NatToString(i)
  }

  /** The value of a string of decimal digits. */
  function DigitsValue(s: string): nat
    requires AllDigits(s)
  {
    if |s| == 0 then 0
    else DigitsValue(s[..|s| - 1]) * 10 + (s[|s| - 1] as int - '0' as int)
  }

  /** Reads an optional minus sign and at least one digit, nothing else. */
  function ParseInt(s: string): Option<int>
  {
    if |s| > 1 && s[0] == '-' && AllDigits(s[1..]) then Some(-(DigitsValue(s[1..]) as int))
    else if |s| > 0 && AllDigits(s) then Some(DigitsValue(s))
    else None
  }

  lemma {:induction false} NatRoundTrip(n: nat)
    ensures DigitsValue(NatToString(n)) == n
    decreases n
  {
    var s := NatToString(n);
    if n < 10 {
      assert s[..0] == [];
    } else {
      assert s[..|s| - 1] == NatToString(n / 10);
      NatRoundTrip(n / 10);
    }
  }

  /** %d followed by a parse gives the number back. */
  lemma IntRoundTrip(i: int)
    ensures ParseInt(IntToString(i)) == Some(i)
  {
    if i < 0 {
      assert IntToString(i)[1..] == NatToString(-i);
      NatRoundTrip(-i);
    } else {
      NatRoundTrip(i);
    }
  }

  lemma PrefixSnoc<T>(s: seq<T>, i: nat)
    requires i < |s|
    ensures s[..i + 1] == s[..i] + [s[i]]
  {
  }

  lemma AppendAssoc<T>(a: seq<T>, b: seq<T>, c: seq<T>)
    ensures a + b + c == a + (b + c)
  {
  }

  /* Tokens: the text split at spaces and newlines. */

  predicate IsSep(c: char)
  {
    c == ' ' || c == '\n'
  }

  predicate IsWord(t: string)
  {
    |t| > 0 && forall i :: 0 <= i < |t| ==> !IsSep(t[i])
  }

  /** Text that is empty or ends in a separator, so a word never runs on past it. */
  predicate Closed(s: string)
  {
    |s| == 0 || IsSep(s[|s| - 1])
  }

  /** The length of the word at the front of s. */
  function WordLen(s: string): (n: nat)
    ensures n <= |s|
    ensures forall i :: 0 <= i < n ==> !IsSep(s[i])
    ensures n < |s| ==> IsSep(s[n])
    decreases |s|
  {
    if |s| == 0 || IsSep(s[0]) then 0 else 1 + WordLen(s[1..])
  }

  function Tokens(s: string): (ts: seq<string>)
    decreases |s|
  {
    if |s| == 0 then []
    else if IsSep(s[0]) then Tokens(s[1..])
    else
      var n := WordLen(s);
      [s[..n]] + Tokens(s[n..])
  }

  /** Splitting a closed text followed by more text splits the two parts apart. */
  lemma {:induction false} TokensAppend(a: string, b: string)
    requires Closed(a)
    ensures Tokens(a + b) == Tokens(a) + Tokens(b)
    decreases |a|
  {
    if |a| == 0 {
      assert a + b == b;
    } else if IsSep(a[0]) {
      assert (a + b)[1..] == a[1..] + b;
      TokensAppend(a[1..], b);
    } else {
      var n := WordLen(a);
      assert WordLen(a + b) == n by {
        var m := WordLen(a + b);
        assert forall i :: 0 <= i < |a| ==> (a + b)[i] == a[i];
      }
      assert (a + b)[..n] == a[..n];
      assert (a + b)[n..] == a[n..] + b;
      TokensAppend(a[n..], b);
    }
  }

  /** A word and its separator give back the word. */
  lemma WordSep(t: string, c: char)
    requires IsWord(t) && IsSep(c)
    ensures Tokens(t + [c]) == [t] && Closed(t + [c])
  {
    var s := t + [c];
    assert WordLen(s) == |t| by {
      assert forall i :: 0 <= i < |t| ==> s[i] == t[i];
      assert s[|t|] == c;
    }
    assert s[..|t|] == t;
    assert s[|t|..] == [c];
    assert Tokens([c]) == Tokens([]) by {
      assert [c][1..] == [];
    }
  }

  /** %d text holds digits and at most a leading minus sign: no separator. */
  lemma IntWord(i: int)
    ensures IsWord(IntToString(i))
    ensures forall k :: 0 <= k < |IntToString(i)| ==> IntToString(i)[k] != '\n'
  {
    var s := IntToString(i);
    if i < 0 {
      assert forall k :: 1 <= k < |s| ==> s[k] == NatToString(-i)[k - 1];
    }
  }

  /* The text SavePPM builds. */

  /** A word followed by a space. */
  function Spaced(t: string): string
  {
    t + " "
  }

  /** A word followed by a newline. */
  function Ended(t: string): string
  {
    t + "\n"
  }

  /** fmt.Sprintf("P3 %d %d 255\n", height, width). */
  function Header(height: int, width: int): (h: string)
    ensures |h| > 0 && h[|h| - 1] == '\n'
  {
    Spaced("P3") + Spaced(IntToString(height)) + Spaced(IntToString(width)) + Ended("255")
  }

  /** fmt.Sprintf("%d %d %d ", r, g, b) for one cell. */
  function Triple(c: Color): (t: string)
    ensures |t| >= 6 && t[|t| - 1] == ' '
  {
    Spaced(IntToString(c.r)) + Spaced(IntToString(c.g)) + Spaced(IntToString(c.b))
  }

  /** The triples of a run of cells, in order. */
  function Triples(cs: seq<Color>): string
    decreases |cs|
  {
    if |cs| == 0 then "" else Triple(cs[0]) + Triples(cs[1..])
  }

  /** One text line: the triples of a row and a newline. */
  function Line(row: seq<Color>): string
  {
    Ended(Triples(row))
  }

  /** The lines of the body, each ended by a newline. */
  function Lines(rows: seq<seq<Color>>): (t: string)
    ensures |rows| == 0 <==> t == ""
    ensures |rows| > 0 ==> t[|t| - 1] == '\n'
    decreases |rows|
  {
    if |rows| == 0 then "" else Line(rows[0]) + Lines(rows[1..])
  }

  /** The rows of the text, top first: row r holds img[x][width - 1 - r] for
      x in 0 .. height. Go's loop over y < width runs no line for a negative width. */
  function Rows(im: Image): (rows: seq<seq<Color>>)
    requires Valid(im)
    ensures |rows| == if im.width < 0 then 0 else im.width
    ensures forall r :: 0 <= r < |rows| ==> |rows[r]| == im.height
    ensures forall r, x :: 0 <= r < |rows| && 0 <= x < im.height ==>
      rows[r][x] == im.img[x][im.width - 1 - r]
  {
    if im.width < 0 then []
    else
      seq(im.width, r requires 0 <= r < im.width =>
        seq(im.height, x requires 0 <= x < im.height => im.img[x][im.width - 1 - r]))
  }

  /** The whole text: the header, then the body lines. */
  function Serialize(im: Image): (t: string)
    requires Valid(im)
    ensures Header(im.height, im.width) <= t && t[|t| - 1] == '\n'
  {
    Header(im.height, im.width) + Lines(Rows(im))
  }

  lemma {:induction false} TriplesSnoc(cs: seq<Color>, c: Color)
    ensures Triples(cs + [c]) == Triples(cs) + Triple(c)
    decreases |cs|
  {
    if |cs| == 0 {
      assert [c][1..] == [];
    } else {
      assert (cs + [c])[1..] == cs[1..] + [c];
      TriplesSnoc(cs[1..], c);
    }
  }

  lemma {:induction false} LinesSnoc(rows: seq<seq<Color>>, row: seq<Color>)
    ensures Lines(rows + [row]) == Lines(rows) + Line(row)
    decreases |rows|
  {
    if |rows| == 0 {
      assert [row][1..] == [];
    } else {
      assert (rows + [row])[1..] == rows[1..] + [row];
      LinesSnoc(rows[1..], row);
    }
  }

  /** One pass of SavePPM's inner loop: the triple of img[x][width - 1 - y]
      extends the text of line y by one cell. */
  method AppendTriple(im: Image, y: int, x: int, line: string) returns (next: string)
    requires Valid(im) && 0 <= y < im.width && 0 <= x < im.height
    requires line == Triples(Rows(im)[y][..x])
    ensures next == Triples(Rows(im)[y][..x + 1])
  {
    ghost var row := Rows(im)[y];
    var newY := im.width - 1 - y;
    assert row[x] == im.img[x][newY];
    PrefixSnoc(row, x);
    TriplesSnoc(row[..x], row[x]);
    next := line + Triple(im.img[x][newY]);
  }

  /** The inner loop of SavePPM for line y: the triples of img[x][width - 1 - y]
      for x in 0 .. height, in order. */
  method LineText(im: Image, y: int) returns (line: string)
    requires Valid(im) && 0 <= y < im.width
    ensures line == Triples(Rows(im)[y])
  {
    line := "";
    var x := 0;
    while x < im.height
      invariant 0 <= x <= im.height
      invariant line == Triples(Rows(im)[y][..x])
    {
      line := AppendTriple(im, y, x, line);
      x := x + 1;
    }
    assert Rows(im)[y][..x] == Rows(im)[y];
  }

  /** The loops of SavePPM building its buffer: the header, then for each y
      below width the height triples of column width - 1 - y and a newline. */
  method SavePPMText(im: Image) returns (text: string)
    requires Valid(im)
    ensures text == Serialize(im)
  {
    ghost var rows := Rows(im);
    var header := Header(im.height, im.width);
    text := header;
    var y := 0;
    while y < im.width
      invariant 0 <= y <= |rows|
      invariant text == header + Lines(rows[..y])
    {
      var line := LineText(im, y);
      PrefixSnoc(rows, y);
      LinesSnoc(rows[..y], rows[y]);
      AppendAssoc(header, Lines(rows[..y]), Line(rows[y]));
      text := text + Ended(line);
      y := y + 1;
    }
    assert rows[..y] == rows;
  }

  /** The header spelled out: "P3 ", height, " ", width, " 255" and a newline. */
  lemma HeaderText(height: int, width: int)
    ensures Header(height, width) == "P3 " + IntToString(height) + " " + IntToString(width) + " 255\n"
  {
    var a, b := IntToString(height), IntToString(width);
    assert Spaced("P3") == "P3 " && Ended("255") == "255\n" && " " + "255\n" == " 255\n";
    AppendAssoc("P3 ", a, " ");
    AppendAssoc("P3 " + a, " ", b);
    AppendAssoc("P3 " + a + " ", b, " ");
    AppendAssoc("P3 " + a + " " + b, " ", "255\n");
  }

  /** The serialised text starts with the header naming height, then width, then 255. */
  lemma HeaderPrefix(im: Image)
    requires Valid(im)
    ensures Serialize(im)[..|Header(im.height, im.width)|] == Header(im.height, im.width)
    ensures Header(im.height, im.width) == "P3 " + IntToString(im.height) + " " + IntToString(im.width) + " 255\n"
  {
    var h := Header(im.height, im.width);
    assert Serialize(im) == h + Lines(Rows(im));
    assert (h + Lines(Rows(im)))[..|h|] == h;
    HeaderText(im.height, im.width);
  }

  function Count(s: string, ch: char): nat
    decreases |s|
  {
    if |s| == 0 then 0 else (if s[0] == ch then 1 else 0) + Count(s[1..], ch)
  }

  lemma {:induction false} CountAppend(a: string, b: string, ch: char)
    ensures Count(a + b, ch) == Count(a, ch) + Count(b, ch)
    decreases |a|
  {
    if |a| == 0 {
      assert a + b == b;
    } else {
      assert (a + b)[1..] == a[1..] + b;
      CountAppend(a[1..], b, ch);
    }
  }

  lemma {:induction false} NoNewline(s: string)
    requires forall i :: 0 <= i < |s| ==> s[i] != '\n'
    ensures Count(s, '\n') == 0
    decreases |s|
  {
    if |s| > 0 {
      NoNewline(s[1..]);
    }
  }

  lemma CountSpaced(t: string, ch: char)
    requires ch != ' '
    ensures Count(Spaced(t), ch) == Count(t, ch)
  {
    CountAppend(t, " ", ch);
    assert " "[1..] == [];
  }

  lemma CountEnded(t: string)
    ensures Count(Ended(t), '\n') == Count(t, '\n') + 1
  {
    CountAppend(t, "\n", '\n');
    assert "\n"[1..] == [];
  }

  lemma IntNewlines(i: int)
    ensures Count(IntToString(i), '\n') == 0
  {
    IntWord(i);
    NoNewline(IntToString(i));
  }

  lemma {:induction false} TriplesNewlines(cs: seq<Color>)
    ensures Count(Triples(cs), '\n') == 0
    decreases |cs|
  {
    if |cs| > 0 {
      var c := cs[0];
      var r, g, b := Spaced(IntToString(c.r)), Spaced(IntToString(c.g)), Spaced(IntToString(c.b));
      IntNewlines(c.r);
      IntNewlines(c.g);
      IntNewlines(c.b);
      CountSpaced(IntToString(c.r), '\n');
      CountSpaced(IntToString(c.g), '\n');
      CountSpaced(IntToString(c.b), '\n');
      CountAppend(r, g, '\n');
      CountAppend(r + g, b, '\n');
      TriplesNewlines(cs[1..]);
      CountAppend(Triple(c), Triples(cs[1..]), '\n');
    }
  }

  /** The body has one line per row: as many newlines as rows. */
  lemma {:induction false} LinesNewlines(rows: seq<seq<Color>>)
    ensures Count(Lines(rows), '\n') == |rows|
    decreases |rows|
  {
    if |rows| > 0 {
      TriplesNewlines(rows[0]);
      CountEnded(Triples(rows[0]));
      CountAppend(Line(rows[0]), Lines(rows[1..]), '\n');
      LinesNewlines(rows[1..]);
    }
  }

  /** The body of the file for an image of non-negative width has exactly
      width lines, and the header holds one more newline. */
  lemma BodyLines(im: Image)
    requires Valid(im) && im.width >= 0
    ensures Count(Lines(Rows(im)), '\n') == im.width
    ensures Count(Serialize(im), '\n') == im.width + 1
  {
    var a, b, c, d := Spaced("P3"), Spaced(IntToString(im.height)), Spaced(IntToString(im.width)), Ended("255");
    NoNewline("P3");
    NoNewline("255");
    IntNewlines(im.height);
    IntNewlines(im.width);
    CountSpaced("P3", '\n');
    CountSpaced(IntToString(im.height), '\n');
    CountSpaced(IntToString(im.width), '\n');
    CountEnded("255");
    CountAppend(a, b, '\n');
    CountAppend(a + b, c, '\n');
    CountAppend(a + b + c, d, '\n');
    LinesNewlines(Rows(im));
    CountAppend(Header(im.height, im.width), Lines(Rows(im)), '\n');
  }

  /* Decoding. */

  /** The tokens of a run of cells: r, g, b of each in order. */
  function TripleTokens(cs: seq<Color>): (ts: seq<string>)
    ensures |ts| == 3 * |cs|
    decreases |cs|
  {
    if |cs| == 0 then []
    else [IntToString(cs[0].r), IntToString(cs[0].g), IntToString(cs[0].b)] + TripleTokens(cs[1..])
  }

  function RowTokens(rows: seq<seq<Color>>): seq<string>
    decreases |rows|
  {
    if |rows| == 0 then [] else TripleTokens(rows[0]) + RowTokens(rows[1..])
  }

  lemma TokensSpaced(t: string)
    requires IsWord(t)
    ensures Tokens(Spaced(t)) == [t] && Closed(Spaced(t))
  {
    WordSep(t, ' ');
  }

  lemma TokensTriple(c: Color)
    ensures Closed(Triple(c))
    ensures Tokens(Triple(c)) == [IntToString(c.r), IntToString(c.g), IntToString(c.b)]
  {
    var r, g, b := Spaced(IntToString(c.r)), Spaced(IntToString(c.g)), Spaced(IntToString(c.b));
    IntWord(c.r);
    IntWord(c.g);
    IntWord(c.b);
    TokensSpaced(IntToString(c.r));
    TokensSpaced(IntToString(c.g));
    TokensSpaced(IntToString(c.b));
    TokensAppend(r, g);
    TokensAppend(r + g, b);
  }

  lemma {:induction false} TokensTriples(cs: seq<Color>)
    ensures Closed(Triples(cs))
    ensures Tokens(Triples(cs)) == TripleTokens(cs)
    decreases |cs|
  {
    if |cs| > 0 {
      TokensTriple(cs[0]);
      TokensTriples(cs[1..]);
      TokensAppend(Triple(cs[0]), Triples(cs[1..]));
    }
  }

  lemma TokensLine(row: seq<Color>)
    ensures Closed(Line(row))
    ensures Tokens(Line(row)) == TripleTokens(row)
  {
    TokensTriples(row);
    TokensAppend(Triples(row), "\n");
    assert Tokens("\n") == [] by {
      assert "\n"[1..] == [];
    }
  }

  lemma {:induction false} TokensLines(rows: seq<seq<Color>>)
    ensures Closed(Lines(rows))
    ensures Tokens(Lines(rows)) == RowTokens(rows)
    decreases |rows|
  {
    if |rows| > 0 {
      TokensLine(rows[0]);
      TokensLines(rows[1..]);
      TokensAppend(Line(rows[0]), Lines(rows[1..]));
    }
  }

  /** Four closed pieces split apart. */
  lemma TokensJoin(a: string, b: string, c: string, d: string)
    requires Closed(a) && Closed(b) && Closed(c) && Closed(d)
    ensures Tokens(a + b + c + d) == Tokens(a) + Tokens(b) + Tokens(c) + Tokens(d)
  {
    TokensAppend(a, b);
    var ab := a + b;
    assert Closed(ab);
    TokensAppend(ab, c);
    var abc := ab + c;
    assert Closed(abc);
    TokensAppend(abc, d);
  }

  lemma TokensHeader(h: int, w: int)
    ensures Closed(Header(h, w))
    ensures Tokens(Header(h, w)) == ["P3", IntToString(h), IntToString(w), "255"]
  {
    var a, b, c, d := Spaced("P3"), Spaced(IntToString(h)), Spaced(IntToString(w)), Ended("255");
    assert IsWord("P3") && IsWord("255");
    IntWord(h);
    IntWord(w);
    TokensSpaced("P3");
    TokensSpaced(IntToString(h));
    TokensSpaced(IntToString(w));
    WordSep("255", '\n');
    TokensJoin(a, b, c, d);
    assert Header(h, w) == a + b + c + d;
  }

  /** Reads k colours from the front of ts, returning them and what is left. */
  function ParseColors(ts: seq<string>, k: nat): (r: Option<(seq<Color>, seq<string>)>)
    ensures r.Some? ==> |r.value.0| == k
    decreases k
  {
    if k == 0 then Some(([], ts))
    else if |ts| < 3 then None
    else match (ParseInt(ts[0]), ParseInt(ts[1]), ParseInt(ts[2]))
      case (Some(red), Some(green), Some(blue)) =>
        (match ParseColors(ts[3..], k - 1)
         case Some((cs, rest)) => Some(([Color(red, green, blue)] + cs, rest))
         case None => None)
      case _ => None
  }

  /** Reads n rows of h colours each. */
  function ParseRows(ts: seq<string>, h: nat, n: nat): (r: Option<(seq<seq<Color>>, seq<string>)>)
    ensures r.Some? ==> |r.value.0| == n && forall i :: 0 <= i < n ==> |r.value.0[i]| == h
    decreases n
  {
    if n == 0 then Some(([], ts))
    else match ParseColors(ts, h)
      case None => None
      case Some((row, more)) =>
        (match ParseRows(more, h, n - 1)
         case Some((rows, rest)) => Some(([row] + rows, rest))
         case None => None)
  }

  /** Puts the rows back as columns, undoing the vertical flip. */
  function Unflip(rows: seq<seq<Color>>, h: nat, w: int): (img: seq<seq<Color>>)
    requires |rows| == (if w < 0 then 0 else w) && forall i :: 0 <= i < |rows| ==> |rows[i]| == h
    requires h > 0 ==> w >= 0
    ensures |img| == h && forall x :: 0 <= x < h ==> |img[x]| == w
  {
    seq(h, x requires 0 <= x < h => seq(|rows|, y requires 0 <= y < |rows| => rows[|rows| - 1 - y][x]))
  }

  /** Reads a P3 text back into a buffer; None when it is not of the shape
      SavePPM writes. */
  function Decode(text: string): (r: Option<Image>)
    ensures r.Some? ==> Valid(r.value)
  {
    var ts := Tokens(text);
    if |ts| < 4 || ts[0] != "P3" || ts[3] != "255" then None
    else match (ParseInt(ts[1]), ParseInt(ts[2]))
      case (Some(h), Some(w)) =>
        if h < 0 || (h > 0 && w < 0) then None
        else
          (match ParseRows(ts[4..], h, if w < 0 then 0 else w)
           case Some((rows, rest)) => if rest != [] then None else Some(Image(Unflip(rows, h, w), h, w))
           case None => None)
      case _ => None
  }

  lemma {:induction false} ParseColorsTokens(cs: seq<Color>, rest: seq<string>)
    ensures ParseColors(TripleTokens(cs) + rest, |cs|) == Some((cs, rest))
    decreases |cs|
  {
    if |cs| > 0 {
      var ts := TripleTokens(cs) + rest;
      var c := cs[0];
      IntRoundTrip(c.r);
      IntRoundTrip(c.g);
      IntRoundTrip(c.b);
      assert ts[0] == IntToString(c.r) && ts[1] == IntToString(c.g) && ts[2] == IntToString(c.b);
      assert ts[3..] == TripleTokens(cs[1..]) + rest;
      ParseColorsTokens(cs[1..], rest);
      assert [c] + cs[1..] == cs;
    } else {
      assert TripleTokens(cs) + rest == rest;
    }
  }

  lemma {:induction false} ParseRowsTokens(rows: seq<seq<Color>>, h: nat, rest: seq<string>)
    requires forall i :: 0 <= i < |rows| ==> |rows[i]| == h
    ensures ParseRows(RowTokens(rows) + rest, h, |rows|) == Some((rows, rest))
    decreases |rows|
  {
    if |rows| > 0 {
      var more := RowTokens(rows[1..]) + rest;
      assert RowTokens(rows) + rest == TripleTokens(rows[0]) + more;
      ParseColorsTokens(rows[0], more);
      ParseRowsTokens(rows[1..], h, rest);
      assert [rows[0]] + rows[1..] == rows;
    } else {
      assert RowTokens(rows) + rest == rest;
    }
  }

  /** The tokens of the serialised text: the four header fields, then the
      colour channels line by line. */
  lemma SerializeTokens(im: Image)
    requires Valid(im)
    ensures Tokens(Serialize(im)) ==
      ["P3", IntToString(im.height), IntToString(im.width), "255"] + RowTokens(Rows(im))
  {
    TokensHeader(im.height, im.width);
    TokensLines(Rows(im));
    TokensAppend(Header(im.height, im.width), Lines(Rows(im)));
  }

  /** Unflipping the rows of the text gives the columns of the buffer back. */
  lemma UnflipRows(im: Image)
    requires Valid(im)
    ensures im.height > 0 ==> im.width >= 0
    ensures Unflip(Rows(im), im.height, im.width) == im.img
  {
    var h, w := im.height, im.width;
    assert h > 0 ==> |im.img[0]| == w;
    var img := Unflip(Rows(im), h, w);
    assert forall x :: 0 <= x < h ==> img[x] == im.img[x];
  }

  /** Decoding the text SavePPM writes gives the buffer back. */
  lemma RoundTrip(im: Image)
    requires Valid(im)
    ensures Decode(Serialize(im)) == Some(im)
  {
    var h, w := im.height, im.width;
    var rows := Rows(im);
    SerializeTokens(im);
    var ts := Tokens(Serialize(im));
    IntRoundTrip(h);
    IntRoundTrip(w);
    UnflipRows(im);
    assert ts[4..] == RowTokens(rows) + [];
    ParseRowsTokens(rows, h, []);
  }

  /** Two buffers with the same text are the same buffer. */
  lemma SerializeInjective(a: Image, b: Image)
    requires Valid(a) && Valid(b) && Serialize(a) == Serialize(b)
    ensures a == b
  {
    RoundTrip(a);
    RoundTrip(b);
  }
}
