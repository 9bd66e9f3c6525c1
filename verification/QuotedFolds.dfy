/** Line folding in double-quoted scalars (section 9.1.1 of YAML 1.1), over any number of lines and any white space. */
module QuotedFolds {
  import opened Wrappers
  import opened Utf8
  import opened QuotedSpec

  /** One line break, and the white space at the head of the next line. */
  datatype Line = Line(lineBreak: seq<int>, margin: seq<int>)

  ghost predicate Blanks(t: seq<int>) { forall i :: 0 <= i < |t| ==> IsBlank(t[i]) }

  /** CR LF is one break. */
  ghost predicate OneBreak(b: seq<int>) { (|b| == 1 && IsBreak(b[0])) || b == [0x0D, 0x0A] }

  ghost predicate LineOk(l: Line) { OneBreak(l.lineBreak) && Blanks(l.margin) }

  /** A lone CR directly before LF would be one break with it. */
  ghost predicate Apart(a: Line, b: Line) { a.lineBreak == [0x0D] && a.margin == [] ==> b.lineBreak != [0x0A] }

  ghost predicate LinesOk(lines: seq<Line>) {
    && (forall i :: 0 <= i < |lines| ==> LineOk(lines[i]))
    && forall i :: 0 <= i < |lines| - 1 ==> Apart(lines[i], lines[i + 1])
  }

  function LineText(l: Line): seq<int> { l.lineBreak + l.margin }

  function Text(lines: seq<Line>): seq<int> {
    if lines == [] then [] else LineText(lines[0]) + Text(lines[1..])
  }

  /** What follows the white space: a character that is neither a blank nor a break. */
  ghost predicate Solid(t: seq<int>) { t != [] && !IsBlank(t[0]) && !IsBreak(t[0]) }

  /** A separator of lines or paragraphs stays what it is; every other break is a line feed. */
  ghost predicate Normal(l: Line, c: int) {
    if l.lineBreak == [0x2028] || l.lineBreak == [0x2029] then [c] == l.lineBreak else c == 0x0A
  }

  ghost predicate Normals(lines: seq<Line>, cs: seq<int>) {
    |cs| == |lines| && forall i :: 0 <= i < |cs| ==> Normal(lines[i], cs[i])
  }

  /** The first break of a gap disappears unless it is a separator; one that stands alone becomes a space. */
  ghost predicate Folded(lines: seq<Line>, cs: seq<int>, folded: seq<int>)
    requires lines != []
  {
    if lines[0].lineBreak == [0x2028] || lines[0].lineBreak == [0x2029] then folded == lines[0].lineBreak + cs
    else if |lines| == 1 then folded == [SPACE]
    else folded == cs
  }

  /** Where the text after the gap stands. */
  function Column(column: int, lines: seq<Line>): int {
    if lines == [] then column else |lines[|lines| - 1].margin|
  }

  lemma {:induction false} BlankRun(m: seq<int>, t: seq<int>, column: int, s: seq<int>, blanks: seq<int>,
                                    first: seq<int>, more: seq<int>, broken: bool)
    requires Blanks(m)
    ensures ScanBlanks(m + t, column, s, blanks, first, more, broken)
            == ScanBlanks(t, column + |m|, s, if broken then blanks else blanks + m, first, more, broken)
    decreases |m|
  {
    if m == [] {
      assert m + t == t && blanks + m == blanks;
    } else {
      assert (m + t)[1..] == m[1..] + t;
      BlankRun(m[1..], t, column + 1, s, if broken then blanks else blanks + [m[0]], first, more, broken);
      assert blanks + [m[0]] + m[1..] == blanks + m;
    }
  }

  lemma {:induction false} BreakRead(l: Line, t: seq<int>, c: int)
    requires LineOk(l) && Normal(l, c)
    requires l.lineBreak == [0x0D] ==> At(l.margin + t, 0) != 0x0A
    ensures var u := LineText(l) + t;
            u != [] && IsBreak(u[0]) && BreakChar(u[0]) == c && u[BreakWidth(u)..] == l.margin + t
  {
    var u := LineText(l) + t;
    assert u == l.lineBreak + (l.margin + t);
    assert u[0] == l.lineBreak[0];
    assert |l.lineBreak| == 1 ==> At(u, 1) == At(l.margin + t, 0);
  }

  lemma {:induction false} NextIsApart(lines: seq<Line>, t: seq<int>)
    requires LinesOk(lines) && lines != [] && Solid(t)
    ensures lines[0].lineBreak == [0x0D] ==> At(lines[0].margin + (Text(lines[1..]) + t), 0) != 0x0A
  {
    var rest := lines[1..];
    if rest == [] {
      assert Text(rest) + t == t;
    } else {
      var u := Text(rest) + t;
      assert u[0] == rest[0].lineBreak[0];
      assert rest[0] == lines[1] && Apart(lines[0], lines[1]);
    }
    if lines[0].margin != [] {
      assert (lines[0].margin + (Text(rest) + t))[0] == lines[0].margin[0];
    }
  }

  lemma {:induction false} TailOk(lines: seq<Line>, cs: seq<int>)
    requires lines != [] && LinesOk(lines) && Normals(lines, cs)
    ensures LinesOk(lines[1..]) && Normals(lines[1..], cs[1..])
  {
    var rest := lines[1..];
    forall i | 0 <= i < |rest| - 1 ensures Apart(rest[i], rest[i + 1]) {
      assert Apart(lines[i + 1], lines[i + 2]);
    }
  }

  /** Once a line has been broken, further breaks are kept and blanks dropped. */
  lemma {:induction false} LineRun(lines: seq<Line>, cs: seq<int>, t: seq<int>, column: int, s: seq<int>,
                                   blanks: seq<int>, first: seq<int>, more: seq<int>)
    requires LinesOk(lines) && Normals(lines, cs) && Solid(t)
    ensures ScanBlanks(Text(lines) + t, column, s, blanks, first, more, true)
            == ScanBlanks(t, Column(column, lines), s, blanks, first, more + cs, true)
    decreases |lines|
  {
    if lines == [] {
      assert Text(lines) + t == t && more + cs == more;
    } else {
      var l, rest := lines[0], lines[1..];
      var u := Text(rest) + t;
      assert Text(lines) + t == LineText(l) + u;
      NextIsApart(lines, t);
      BreakRead(l, u, cs[0]);
      BlankRun(l.margin, u, 0, s, blanks, first, more + [cs[0]], true);
      TailOk(lines, cs);
      LineRun(rest, cs[1..], t, |l.margin|, s, blanks, first, more + [cs[0]]);
      assert more + [cs[0]] + cs[1..] == more + cs;
    }
  }

  lemma {:induction false} Settles(t: seq<int>, column: int, s: seq<int>, blanks: seq<int>, first: seq<int>,
                                   more: seq<int>, broken: bool)
    requires Solid(t)
    ensures ScanBlanks(t, column, s, blanks, first, more, broken)
            == ScanLine(t, column, s + Joined(blanks, first, more, broken))
  {
  }

  /** Blanks within a line are kept as they are. */
  lemma {:induction false} BlanksKept(m: seq<int>, t: seq<int>, column: int, s: seq<int>)
    requires m != [] && Blanks(m) && Solid(t)
    ensures ScanText(m + t, column, s) == ScanLine(t, column + |m|, s + m)
  {
    assert (m + t)[0] == m[0];
    BlankRun(m, t, column, s, [], [], [], false);
    assert [] + m == m;
    Settles(t, column + |m|, s, m, [], [], false);
  }

  lemma {:induction false} BlankThenBreak(m: seq<int>, u: seq<int>, column: int, s: seq<int>)
    requires Blanks(m) && u != [] && IsBreak(u[0])
    ensures ScanText(m + u, column, s)
            == ScanBlanks(u[BreakWidth(u)..], 0, s, [], [BreakChar(u[0])], [], true)
  {
    BlankRun(m, u, column, s, [], [], [], false);
    assert [] + [BreakChar(u[0])] == [BreakChar(u[0])];
    if m == [] {
      assert m + u == u;
    } else {
      assert (m + u)[0] == m[0];
    }
  }

  /** The first break of a gap and the margin after it. */
  lemma {:induction false} FirstBreak(m: seq<int>, l: Line, u: seq<int>, column: int, s: seq<int>, c: int)
    requires Blanks(m) && LineOk(l) && Normal(l, c)
    requires l.lineBreak == [0x0D] ==> At(l.margin + u, 0) != 0x0A
    ensures ScanText(m + (LineText(l) + u), column, s) == ScanBlanks(u, |l.margin|, s, [], [c], [], true)
  {
    BreakRead(l, u, c);
    BlankThenBreak(m, LineText(l) + u, column, s);
    BlankRun(l.margin, u, 0, s, [], [c], [], true);
  }

  lemma {:induction false} EscapedBreak(u: seq<int>, column: int, s: seq<int>)
    requires u != [] && IsBreak(u[0]) && At(u[BreakWidth(u)..], 0) != QUOTE
    ensures ScanText([BACKSLASH] + u, column, s) == ScanBlanks(u[BreakWidth(u)..], 0, s, [], [], [], true)
  {
    var w := [BACKSLASH] + u;
    assert w[1..] == u && At(w, 1) == u[0];
    assert w[1 + BreakWidth(u)..] == u[BreakWidth(u)..];
  }

  lemma {:induction false} FirstOk(lines: seq<Line>, cs: seq<int>)
    requires lines != [] && LinesOk(lines) && Normals(lines[1..], cs)
    ensures var c := BreakChar(lines[0].lineBreak[0]); Normal(lines[0], c) && Normals(lines, [c] + cs)
  {
    var all := [BreakChar(lines[0].lineBreak[0])] + cs;
    forall i | 0 <= i < |all| ensures Normal(lines[i], all[i]) {
      if i > 0 {
        assert Normal(lines[1..][i - 1], cs[i - 1]);
      }
    }
  }

  lemma {:induction false} JoinedFolds(lines: seq<Line>, cs: seq<int>, folded: seq<int>, c: int)
    requires lines != [] && LinesOk(lines) && Normal(lines[0], c)
    requires Normals(lines[1..], cs) && Folded(lines, cs, folded)
    ensures Joined([], [c], cs, true) == folded
  {
  }

  /** Whatever the first break left, the lines after it add their breaks. */
  lemma {:induction false} RestRead(lines: seq<Line>, cs: seq<int>, t: seq<int>, column: int, s: seq<int>,
                                    first: seq<int>)
    requires LinesOk(lines) && Normals(lines, cs) && Solid(t)
    ensures ScanBlanks(Text(lines) + t, column, s, [], first, [], true)
            == ScanLine(t, Column(column, lines), s + Joined([], first, cs, true))
  {
    LineRun(lines, cs, t, column, s, [], first, []);
    assert [] + cs == cs;
    Settles(t, Column(column, lines), s, [], first, cs, true);
  }

  /** What is needed of the first line of a gap and of those after it. */
  lemma {:induction false} GapParts(lines: seq<Line>, cs: seq<int>, t: seq<int>)
    requires lines != [] && LinesOk(lines) && Normals(lines[1..], cs) && Solid(t)
    ensures var l, u := lines[0], Text(lines[1..]) + t;
            && Text(lines) + t == LineText(l) + u && LineOk(l) && Normal(l, BreakChar(l.lineBreak[0]))
            && LinesOk(lines[1..]) && (l.lineBreak == [0x0D] ==> At(l.margin + u, 0) != 0x0A)
  {
    FirstOk(lines, cs);
    TailOk(lines, [BreakChar(lines[0].lineBreak[0])] + cs);
    NextIsApart(lines, t);
  }

  lemma {:induction false} ColumnAfter(lines: seq<Line>, column: int)
    requires lines != []
    ensures Column(|lines[0].margin|, lines[1..]) == Column(column, lines)
  {
  }

  /**
   Main result: blanks around line breaks are dropped, a line break that stands alone reads as a
   space, and of several the first is dropped and the others are kept; a separator of lines or
   paragraphs is always kept.
   */
  lemma {:induction false} GapFolds(m: seq<int>, lines: seq<Line>, cs: seq<int>, folded: seq<int>, t: seq<int>,
                                    column: int, s: seq<int>)
    requires Blanks(m) && lines != [] && LinesOk(lines) && Solid(t)
    requires Normals(lines[1..], cs) && Folded(lines, cs, folded)
    ensures ScanText(m + (Text(lines) + t), column, s) == ScanLine(t, Column(column, lines), s + folded)
  {
    var l, u, c := lines[0], Text(lines[1..]) + t, BreakChar(lines[0].lineBreak[0]);
    GapParts(lines, cs, t);
    FirstBreak(m, l, u, column, s, c);
    RestRead(lines[1..], cs, t, |l.margin|, s, [c]);
    ColumnAfter(lines, column);
    JoinedFolds(lines, cs, folded, c);
  }

  /** After an escaped break nothing stands for it: blanks are dropped and every further break is kept. */
  lemma {:induction false} EscapedBreakFolds(lines: seq<Line>, cs: seq<int>, t: seq<int>, column: int, s: seq<int>)
    requires lines != [] && LinesOk(lines) && Normals(lines[1..], cs) && Solid(t)
    requires lines[0].margin != [] || |lines| > 1 || t[0] != QUOTE
    ensures ScanText([BACKSLASH] + (Text(lines) + t), column, s) == ScanLine(t, Column(column, lines), s + cs)
  {
    var l, u := lines[0], Text(lines[1..]) + t;
    GapParts(lines, cs, t);
    HeadOf(lines, t);
    SkipEscaped(l, u, column, s);
    RestRead(lines[1..], cs, t, |l.margin|, s, []);
    ColumnAfter(lines, column);
    assert Joined([], [], cs, true) == cs;
  }

  lemma {:induction false} SkipEscaped(l: Line, u: seq<int>, column: int, s: seq<int>)
    requires LineOk(l) && Normal(l, BreakChar(l.lineBreak[0])) && At(l.margin + u, 0) != QUOTE
    requires l.lineBreak == [0x0D] ==> At(l.margin + u, 0) != 0x0A
    ensures ScanText([BACKSLASH] + (LineText(l) + u), column, s) == ScanBlanks(u, |l.margin|, s, [], [], [], true)
  {
    BreakRead(l, u, BreakChar(l.lineBreak[0]));
    EscapedBreak(LineText(l) + u, column, s);
    BlankRun(l.margin, u, 0, s, [], [], [], true);
  }

  lemma {:induction false} HeadOf(lines: seq<Line>, t: seq<int>)
    requires lines != [] && LinesOk(lines) && Solid(t)
    requires lines[0].margin != [] || |lines| > 1 || t[0] != QUOTE
    ensures At(lines[0].margin + (Text(lines[1..]) + t), 0) != QUOTE
  {
    var m, u := lines[0].margin, Text(lines[1..]) + t;
    if m != [] {
      assert (m + u)[0] == m[0] && IsBlank(m[0]);
    } else {
      assert m + u == u;
      if |lines| > 1 {
        assert LineOk(lines[1]);
        assert u[0] == lines[1].lineBreak[0];
      } else {
        assert u == t;
      }
    }
  }

  /** A quote directly after an escaped break ends the scalar. */
  lemma {:induction false} EscapedBreakCloses(l: Line, rest: seq<int>, column: int, s: seq<int>)
    requires LineOk(l) && l.margin == []
    ensures ScanText([BACKSLASH] + (l.lineBreak + ([QUOTE] + rest)), column, s) == Done(s, rest)
  {
    var t := [QUOTE] + rest;
    var w := [BACKSLASH] + (l.lineBreak + t);
    assert l.margin + t == t && LineText(l) == l.lineBreak + [] && l.lineBreak + [] == l.lineBreak;
    BreakRead(l, t, BreakChar(l.lineBreak[0]));
    assert w[1..] == l.lineBreak + t;
  }

  // ---------- escapes ----------

  /** Hexadecimal digits may be lower-case, which the emitter never writes. */
  lemma {:induction false} LowerHex(d: int, k: nat, t: seq<int>, acc: int)
    requires 10 <= d < 16 && k > 0
    ensures ReadHex([0x61 + d - 10] + t, k, acc) == ReadHex(t, k - 1, acc * 16 + d)
  {
    assert ([0x61 + d - 10] + t)[1..] == t;
  }

  /** The letters of escapes (section 5.6 of YAML 1.1) and what they stand for, besides characters given by code. */
  const LETTERS: string := "0abt\tnvfre \"'\\N_LP"

  const MEANINGS: seq<int> := [0x00, 0x07, 0x08, 0x09, 0x09, 0x0A, 0x0B, 0x0C, 0x0D, 0x1B, 0x20, 0x22, 0x27, 0x5C,
                               0x85, 0xA0, 0x2028, 0x2029]

  /** Each letter reads as its character, and no escape has another letter but x, u or U. */
  lemma {:induction false} EscapeLetters(c: int, rest: seq<int>, i: nat)
    requires i < |LETTERS|
    ensures |LETTERS| == |MEANINGS| && Unescape([BACKSLASH, LETTERS[i] as int] + rest) == Some((MEANINGS[i], 2))
    ensures c == 'x' as int || c == 'u' as int || c == 'U' as int
            || (exists j :: 0 <= j < |LETTERS| && LETTERS[j] as int == c)
            || Unescape([BACKSLASH, c] + rest) == None
  {
    LetterMeans(i);
    var t, u := [BACKSLASH, c] + rest, [BACKSLASH, LETTERS[i] as int] + rest;
    assert t[1] == c && u[1] == LETTERS[i] as int;
    if Unletter(c).Some? && CodeLength(c) == 0 {
      LetterListed(c);
    }
  }

  lemma {:induction false} LetterMeans(i: nat)
    requires i < |LETTERS|
    ensures |LETTERS| == |MEANINGS| && Unletter(LETTERS[i] as int) == Some(MEANINGS[i])
    ensures CodeLength(LETTERS[i] as int) == 0
  {
  }

  lemma {:induction false} LetterListed(c: int)
    requires Unletter(c).Some?
    ensures exists i :: 0 <= i < |LETTERS| && LETTERS[i] as int == c
  {
    var i := if c == '0' as int then 0 else if c == 'a' as int then 1 else if c == 'b' as int then 2
             else if c == 't' as int then 3 else if c == 0x09 then 4 else if c == 'n' as int then 5
             else if c == 'v' as int then 6 else if c == 'f' as int then 7 else if c == 'r' as int then 8
             else if c == 'e' as int then 9 else if c == 0x20 then 10 else if c == 0x22 then 11
             else if c == 0x27 then 12 else if c == 0x5C then 13 else if c == 'N' as int then 14
             else if c == '_' as int then 15 else if c == 'L' as int then 16 else 17;
    assert LETTERS[i] as int == c;
  }

  /** A digit in any of its three forms. */
  ghost predicate HexDigitChar(c: int) {
    '0' as int <= c <= '9' as int || 'A' as int <= c <= 'F' as int || 'a' as int <= c <= 'f' as int
  }

  /** A code is read exactly if all its digits are there. */
  lemma {:induction false} CodeDigits(t: seq<int>, k: nat, acc: int)
    ensures ReadHex(t, k, acc).Some? <==> k <= |t| && forall i :: 0 <= i < k ==> HexDigitChar(t[i])
    decreases k
  {
    if k > 0 && t != [] && IsHex(t[0]) {
      CodeDigits(t[1..], k - 1, acc * 16 + HexValue(t[0]));
      if k <= |t| && forall i :: 0 <= i < k - 1 ==> HexDigitChar(t[1..][i]) {
        forall i | 0 <= i < k ensures HexDigitChar(t[i]) {
          assert i > 0 ==> t[i] == t[1..][i - 1];
        }
      }
    }
  }

  /** Whatever is escaped is a character: surrogates and codes past the last one are refused. */
  lemma {:induction false} EscapesAreScalar(t: seq<int>)
    requires t != [] && Unescape(t).Some?
    ensures Scalar(Unescape(t).value.0)
  {
  }

  /** Only at the left margin, three dashes or dots before white space or the end refuse the scalar. */
  lemma {:induction false} IndicatorRefused(t: seq<int>, column: int, s: seq<int>)
    requires t != [] && t[0] != 0
    ensures var marker := |t| >= 3 && t[0] == t[1] == t[2] && (t[0] == '-' as int || t[0] == '.' as int)
                          && (|t| == 3 || t[3] in {0x20, 0x09, 0x0D, 0x0A, 0x85, 0x2028, 0x2029, 0});
            ScanLine(t, column, s) == if column == 0 && marker then Error else ScanText(t, column, s)
  {
  }

  // ---------- where a scalar ends ----------

  /** `rest` follows a quote in `t`, with no end of the text before. */
  ghost predicate Closes(t: seq<int>, rest: seq<int>) {
    exists k :: 0 <= k < |t| && t[k] == QUOTE && rest == t[k + 1..] && 0 !in t[..k]
  }

  ghost predicate Closed(t: seq<int>, r: Scanned) { r.Done? ==> Closes(t, r.rest) }

  lemma {:induction false} ClosesLater(t: seq<int>, n: nat, r: Scanned)
    requires n <= |t| && 0 !in t[..n] && Closed(t[n..], r)
    ensures Closed(t, r)
  {
    if r.Done? {
      var u := t[n..];
      var k :| 0 <= k < |u| && u[k] == QUOTE && r.rest == u[k + 1..] && 0 !in u[..k];
      var m := n + k;
      forall i | 0 <= i < m ensures t[i] != 0 {
        assert if i < n then t[..n][i] == t[i] else u[..k][i - n] == t[i];
      }
      assert t[m] == u[k] == QUOTE;
      assert r.rest == t[m + 1..];
    }
  }

  lemma {:induction false} DigitsNonzero(t: seq<int>, k: nat, acc: int)
    requires k <= |t| && ReadHex(t, k, acc).Some?
    ensures 0 !in t[..k]
    decreases k
  {
    if k > 0 {
      DigitsNonzero(t[1..], k - 1, acc * 16 + HexValue(t[0]));
      assert t[..k] == [t[0]] + t[1..][..k - 1];
    }
  }

  lemma {:induction false} EscapeNonzero(t: seq<int>)
    requires t != [] && t[0] == BACKSLASH && Unescape(t).Some?
    ensures 0 !in t[..Unescape(t).value.1]
  {
    var k := CodeLength(t[1]);
    assert t[..2] == [t[0], t[1]];
    if k > 0 {
      DigitsNonzero(t[2..], k, 0);
      assert t[..2 + k] == t[..2] + t[2..][..k];
    }
  }

  lemma {:induction false} OneMore(t: seq<int>, n: nat)
    requires n <= |t| && n <= 3 && (n > 0 ==> t[0] != 0) && (n > 1 ==> t[1] != 0) && (n > 2 ==> t[2] != 0)
    ensures 0 !in t[..n]
  {
  }

  lemma {:induction false} LineCloses(t: seq<int>, column: int, s: seq<int>)
    ensures Closed(t, ScanLine(t, column, s))
    decreases |t|, if At(t, 0) == 0 then 0 else 2
  {
    if !(column == 0 && DocumentIndicator(t)) && At(t, 0) != 0 {
      TextCloses(t, column, s);
    }
  }

  lemma {:induction false} TextCloses(t: seq<int>, column: int, s: seq<int>)
    ensures Closed(t, ScanText(t, column, s))
    decreases |t|, if At(t, 0) == 0 then 2 else 1
  {
    var c := At(t, 0);
    if IsBlankz(c) {
      BlanksClose(t, column, s, [], [], [], false);
    } else if c == QUOTE {
      assert t[0] == QUOTE && 0 !in t[..0];
    } else if c == BACKSLASH && IsBreak(At(t, 1)) {
      EscapedCloses(t, column, s);
    } else if c == BACKSLASH {
      if Unescape(t).Some? {
        var e := Unescape(t).value;
        EscapeNonzero(t);
        TextCloses(t[e.1..], column + e.1, s + [e.0]);
        ClosesLater(t, e.1, ScanText(t[e.1..], column + e.1, s + [e.0]));
      }
    } else {
      TextCloses(t[1..], column + 1, s + [c]);
      OneMore(t, 1);
      ClosesLater(t, 1, ScanText(t[1..], column + 1, s + [c]));
    }
  }

  lemma {:induction false} EscapedCloses(t: seq<int>, column: int, s: seq<int>)
    requires At(t, 0) == BACKSLASH && IsBreak(At(t, 1))
    ensures Closed(t, ScanText(t, column, s))
    decreases |t|, 0
  {
    var n := 1 + BreakWidth(t[1..]);
    var r := t[n..];
    OneMore(t, n);
    if At(r, 0) == QUOTE {
      assert t[n] == QUOTE && t[n + 1..] == r[1..];
    } else {
      BlanksClose(r, 0, s, [], [], [], true);
      ClosesLater(t, n, ScanBlanks(r, 0, s, [], [], [], true));
    }
  }

  lemma {:induction false} BlanksClose(t: seq<int>, column: int, s: seq<int>, blanks: seq<int>, first: seq<int>,
                                       more: seq<int>, broken: bool)
    ensures Closed(t, ScanBlanks(t, column, s, blanks, first, more, broken))
    decreases |t|, if IsBlank(At(t, 0)) || IsBreak(At(t, 0)) then 0 else if At(t, 0) == 0 then 1 else 3
  {
    var c := At(t, 0);
    if IsBlank(c) {
      var kept := if broken then blanks else blanks + [c];
      BlanksClose(t[1..], column + 1, s, kept, first, more, broken);
      OneMore(t, 1);
      ClosesLater(t, 1, ScanBlanks(t[1..], column + 1, s, kept, first, more, broken));
    } else if IsBreak(c) {
      var n := BreakWidth(t);
      OneMore(t, n);
      if !broken {
        BlanksClose(t[n..], 0, s, [], first + [BreakChar(c)], more, true);
        ClosesLater(t, n, ScanBlanks(t[n..], 0, s, [], first + [BreakChar(c)], more, true));
      } else {
        BlanksClose(t[n..], 0, s, blanks, first, more + [BreakChar(c)], true);
        ClosesLater(t, n, ScanBlanks(t[n..], 0, s, blanks, first, more + [BreakChar(c)], true));
      }
    } else {
      LineCloses(t, column, s + Joined(blanks, first, more, broken));
    }
  }

  /** Whatever the text, a scalar that is read ends at a quote, and the text does not end before. */
  lemma {:induction false} ScalarCloses(t: seq<int>, column: int)
    requires t != [] && t[0] == QUOTE
    ensures Closed(t[1..], ScanQuoted(t, column))
  {
    LineCloses(t[1..], column + 1, []);
  }
}
