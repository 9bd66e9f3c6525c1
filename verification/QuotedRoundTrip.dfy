/** Writing a value between double quotes and scanning it back gives the value. */
module QuotedRoundTrip {
  import opened Wrappers
  import opened Utf8
  import opened QuotedSpec

  // ---------- hexadecimal ----------

  lemma {:induction false} DigitRound(d: int)
    requires 0 <= d < 16
    ensures IsHex(HexDigit(d)) && HexValue(HexDigit(d)) == d
  {
  }

  lemma {:induction false} HexRound(v: int, w: nat, rest: seq<int>)
    ensures ReadHex(Hex(v, w) + rest, w, Shift(v, w)) == Some(v) && |Hex(v, w)| == w
    decreases w
  {
    if w > 0 {
      var d := Shift(v, w - 1) % 16;
      DigitRound(d);
      var t := Hex(v, w) + rest;
      assert t[0] == HexDigit(d) && t[1..] == Hex(v, w - 1) + rest;
      assert Shift(v, w) * 16 + d == Shift(v, w - 1);
      HexRound(v, w - 1, rest);
    }
  }

  /** Two digits hold a byte, four a character of the basic plane, eight any character. */
  lemma {:induction false} EnoughDigits(c: int)
    requires Scalar(c)
    ensures c <= 0xFF ==> Shift(c, 2) == 0
    ensures c <= 0xFFFF ==> Shift(c, 4) == 0
    ensures Shift(c, 8) == 0
  {
    assert Shift(c, 1) == Shift(c, 0) / 16;
    assert Shift(c, 2) == Shift(c, 1) / 16;
    assert Shift(c, 3) == Shift(c, 2) / 16;
    assert Shift(c, 4) == Shift(c, 3) / 16;
    assert Shift(c, 5) == Shift(c, 4) / 16;
    assert Shift(c, 6) == Shift(c, 5) / 16;
    assert Shift(c, 7) == Shift(c, 6) / 16;
  }

  // ---------- escapes ----------

  lemma {:induction false} NumericRound(c: int, l: int, w: nat, rest: seq<int>)
    requires Scalar(c) && w == CodeLength(l) && w > 0 && Shift(c, w) == 0
    ensures Unescape([BACKSLASH, l] + Hex(c, w) + rest) == Some((c, 2 + w)) && |Hex(c, w)| == w
  {
    HexRound(c, w, rest);
    var t := [BACKSLASH, l] + Hex(c, w) + rest;
    assert t[2..] == Hex(c, w) + rest;
  }

  lemma {:induction false} EscapeRound(c: int, rest: seq<int>)
    requires Scalar(c)
    ensures Unescape(Escape(c) + rest) == Some((c, |Escape(c)|))
    ensures |Escape(c)| >= 2 && Escape(c)[0] == BACKSLASH && !IsBreak(Escape(c)[1])
  {
    if Letter(c).Some? {
      assert Unletter(Letter(c).value) == Some(c);
    } else {
      EnoughDigits(c);
      if c <= 0xFF {
        NumericRound(c, 'x' as int, 2, rest);
      } else if c <= 0xFFFF {
        NumericRound(c, 'u' as int, 4, rest);
      } else {
        NumericRound(c, 'U' as int, 8, rest);
      }
    }
  }

  // ---------- folded lines ----------

  lemma {:induction false} SkipMargin(n: nat, t: seq<int>, column: int, s: seq<int>, first: seq<int>)
    ensures ScanBlanks(Spaces(n) + t, column, s, [], first, [], true)
            == ScanBlanks(t, column + n, s, [], first, [], true)
    decreases n
  {
    if n == 0 {
      assert Spaces(n) + t == t;
    } else {
      var u := Spaces(n) + t;
      assert u[0] == SPACE && u[1..] == Spaces(n - 1) + t;
      SkipMargin(n - 1, t, column + 1, s, first);
    }
  }

  /** A break, a margin and a non-blank character read as one space before the line that starts there. */
  lemma {:induction false} FoldRound(b: LineBreak, n: nat, t: seq<int>, column: int, s: seq<int>)
    requires t != [] && !IsBlankz(t[0])
    ensures ScanText(BreakOf(b) + Spaces(n) + t, column, s) == ScanLine(t, n, s + [SPACE])
  {
    var whole := BreakOf(b) + Spaces(n) + t;
    var tail := Spaces(n) + t;
    assert tail[0] != 0x0A by {
      assert n > 0 ==> tail[0] == SPACE;
      assert n == 0 ==> tail == t;
    }
    assert whole == BreakOf(b) + tail;
    assert BreakWidth(whole) == |BreakOf(b)| && whole[|BreakOf(b)|..] == tail;
    assert IsBreak(At(whole, 0)) && BreakChar(At(whole, 0)) == 0x0A;
    calc {
      ScanText(whole, column, s);
      ScanBlanks(whole, column, s, [], [], [], false);
      { assert [] + [0x0A] == [0x0A]; }
      ScanBlanks(tail, 0, s, [], [0x0A], [], true);
      { SkipMargin(n, t, 0, s, [0x0A]); }
      ScanBlanks(t, n, s, [], [0x0A], [], true);
      ScanLine(t, n, s + [SPACE]);
    }
  }

  // ---------- the round trip ----------

  /**
   After an indentation the emitter has moved past the margin, unless it has just written the
   indentation or spaces after it.
   */
  predicate PlaceOk(s: Settings, p: Place, spaces: bool) {
    p.indention ==> p.column >= Margin(s) && (spaces || p.column > Margin(s))
  }

  predicate RawSpace(s: Settings, v: seq<int>, i: nat)
    requires i <= |v|
  {
    i < |v| && !NeedsEscape(s, v, v[i]) && v[i] == SPACE
  }

  lemma {:induction false} PlaceKept(s: Settings, v: seq<int>, i: nat, p: Place, spaces: bool)
    requires i < |v| && Scalar(v[i]) && PlaceOk(s, p, spaces)
    ensures PlaceOk(s, AfterChar(s, v, i, p, spaces), RawSpace(s, v, i))
    ensures RawSpace(s, v, i) && Folds(s, v, i, p, spaces) ==> BreaksLine(s, p)
  {
    EscapeRound(v[i], []);
  }

  lemma {:induction false} HeadNotBlank(s: Settings, v: seq<int>, i: nat, p: Place, spaces: bool)
    requires i <= |v| && !RawSpace(s, v, i) && (i < |v| ==> Scalar(v[i]))
    ensures Body(s, v, i, p, spaces) != [] && !IsBlankz(Body(s, v, i, p, spaces)[0])
  {
    if i < |v| {
      EscapeRound(v[i], []);
    }
  }

  /** One unescaped or escaped character that is not a plain space is read as itself. */
  lemma {:induction false} CharBack(s: Settings, v: seq<int>, i: nat, p: Place, spaces: bool, t: seq<int>, column: int,
                                    done: seq<int>)
    requires i < |v| && Scalar(v[i]) && !RawSpace(s, v, i)
    ensures var x := CharText(s, v, i, p, spaces);
            ScanText(x + t, column, done) == ScanText(t, column + |x|, done + [v[i]])
  {
    var x := CharText(s, v, i, p, spaces);
    if NeedsEscape(s, v, v[i]) {
      EscapeRound(v[i], t);
      assert (x + t)[|x|..] == t;
    } else {
      assert (x + t)[1..] == t;
    }
  }

  ghost predicate Reads(s: Settings, v: seq<int>, i: nat, p: Place, spaces: bool) {
    i <= |v| && Scalars(v) && PlaceOk(s, p, spaces)
  }

  /** No line folded from character `i` on starts, at the left margin, with what looks like a document indicator. */
  predicate Unmistakable(s: Settings, v: seq<int>, i: nat, p: Place, spaces: bool, rest: seq<int>)
    requires i <= |v|
    decreases |v| - i
  {
    i == |v| ||
    (var p' := AfterChar(s, v, i, p, spaces);
     && (RawSpace(s, v, i) && Folds(s, v, i, p, spaces) && Margin(s) == 0 && v[i + 1] != SPACE
         ==> !DocumentIndicator(Body(s, v, i + 1, p', true) + rest))
     && Unmistakable(s, v, i + 1, p', RawSpace(s, v, i), rest))
  }

  /** What reading the rest of the value comes to. */
  function Back(s: Settings, v: seq<int>, i: nat, p: Place, spaces: bool, rest: seq<int>, done: seq<int>): Scanned
    requires i <= |v|
  {
    if Unmistakable(s, v, i, p, spaces, rest) then Done(done + v[i..], rest) else Error
  }

  lemma {:induction false} TextBack(s: Settings, v: seq<int>, i: nat, p: Place, spaces: bool, rest: seq<int>,
                                    column: int, done: seq<int>)
    requires Reads(s, v, i, p, spaces) && (column >= 1 || (column >= 0 && !RawSpace(s, v, i)))
    ensures ScanText(Body(s, v, i, p, spaces) + rest, column, done) == Back(s, v, i, p, spaces, rest, done)
    decreases |v| - i, 0
  {
    if i == |v| {
      assert Body(s, v, i, p, spaces) + rest == [QUOTE] + rest;
      assert ([QUOTE] + rest)[1..] == rest;
      assert done + v[i..] == done;
    } else if !RawSpace(s, v, i) {
      var p' := AfterChar(s, v, i, p, spaces);
      PlaceKept(s, v, i, p, spaces);
      var x := CharText(s, v, i, p, spaces);
      CharStep(s, v, i, p, spaces, rest, column, done);
      TextBack(s, v, i + 1, p', false, rest, column + |x|, done + [v[i]]);
      CharVerdict(s, v, i, p, spaces, rest, done);
    } else if !Folds(s, v, i, p, spaces) {
      SpaceBack(s, v, i, p, spaces, rest, column, done);
    } else {
      FoldBack(s, v, i, p, spaces, rest, column, done);
    }
  }

  lemma {:induction false} CharStep(s: Settings, v: seq<int>, i: nat, p: Place, spaces: bool, rest: seq<int>,
                                    column: int, done: seq<int>)
    requires i < |v| && Scalar(v[i]) && !RawSpace(s, v, i)
    ensures var x := CharText(s, v, i, p, spaces);
            x != [] && ScanText(Body(s, v, i, p, spaces) + rest, column, done)
                       == ScanText(Body(s, v, i + 1, AfterChar(s, v, i, p, spaces), false) + rest, column + |x|,
                                   done + [v[i]])
  {
    var t := Body(s, v, i + 1, AfterChar(s, v, i, p, spaces), false) + rest;
    assert Body(s, v, i, p, spaces) + rest == CharText(s, v, i, p, spaces) + t;
    CharBack(s, v, i, p, spaces, t, column, done);
    if NeedsEscape(s, v, v[i]) {
      EscapeRound(v[i], []);
    }
  }

  lemma {:induction false} Peeled(done: seq<int>, v: seq<int>, i: nat)
    requires i < |v|
    ensures (done + [v[i]]) + v[i + 1..] == done + v[i..]
  {
  }

  lemma {:induction false} CharVerdict(s: Settings, v: seq<int>, i: nat, p: Place, spaces: bool, rest: seq<int>,
                                       done: seq<int>)
    requires i < |v| && !RawSpace(s, v, i)
    ensures Back(s, v, i, p, spaces, rest, done)
            == Back(s, v, i + 1, AfterChar(s, v, i, p, spaces), false, rest, done + [v[i]])
  {
    Peeled(done, v, i);
  }

  lemma {:induction false} SpaceBack(s: Settings, v: seq<int>, i: nat, p: Place, spaces: bool, rest: seq<int>,
                                     column: int, done: seq<int>)
    requires Reads(s, v, i, p, spaces) && column >= 1 && RawSpace(s, v, i) && !Folds(s, v, i, p, spaces)
    ensures ScanText(Body(s, v, i, p, spaces) + rest, column, done) == Back(s, v, i, p, spaces, rest, done)
    decreases |v| - i - 1, 2
  {
    var p' := AfterChar(s, v, i, p, spaces);
    PlaceKept(s, v, i, p, spaces);
    var t := Body(s, v, i + 1, p', true) + rest;
    var whole := Body(s, v, i, p, spaces) + rest;
    assert whole == [SPACE] + t;
    assert whole[1..] == t;
    assert [] + [SPACE] == [SPACE];
    BlankBack(s, v, i + 1, p', rest, column + 1, done, [SPACE]);
    Peeled(done, v, i);
  }

  /** The text of a folded space, and of what follows it. */
  lemma {:induction false} FoldText(s: Settings, v: seq<int>, i: nat, p: Place, spaces: bool, rest: seq<int>)
    requires Reads(s, v, i, p, spaces) && RawSpace(s, v, i) && Folds(s, v, i, p, spaces)
    ensures var p' := AfterChar(s, v, i, p, spaces);
            && Reads(s, v, i + 1, p', true)
            && Body(s, v, i, p, spaces) + rest
               == BreakOf(s.lineBreak) + Spaces(Margin(s))
                  + ((if v[i + 1] == SPACE then [BACKSLASH] else []) + (Body(s, v, i + 1, p', true) + rest))
  {
    PlaceKept(s, v, i, p, spaces);
  }

  /** The margin of a folded line: the scan goes on at the head of the line, one space later. */
  lemma {:induction false} MarginBack(s: Settings, v: seq<int>, i: nat, p: Place, spaces: bool, rest: seq<int>,
                                      column: int, done: seq<int>, line: seq<int>)
    requires Reads(s, v, i, p, spaces) && RawSpace(s, v, i) && Folds(s, v, i, p, spaces)
    requires line == (if v[i + 1] == SPACE then [BACKSLASH] else [])
                     + (Body(s, v, i + 1, AfterChar(s, v, i, p, spaces), true) + rest)
    requires line != [] && !IsBlankz(line[0])
    ensures ScanText(Body(s, v, i, p, spaces) + rest, column, done) == ScanLine(line, Margin(s), done + [SPACE])
  {
    FoldText(s, v, i, p, spaces, rest);
    FoldRound(s.lineBreak, Margin(s), line, column, done);
  }

  /** A folded space is read well if its line is, and is not mistaken for a document indicator. */
  lemma {:induction false} FoldVerdict(s: Settings, v: seq<int>, i: nat, p: Place, spaces: bool, rest: seq<int>,
                                       done: seq<int>)
    requires i < |v| && RawSpace(s, v, i) && Folds(s, v, i, p, spaces)
    ensures var p' := AfterChar(s, v, i, p, spaces);
            Back(s, v, i, p, spaces, rest, done)
            == if Margin(s) == 0 && v[i + 1] != SPACE && DocumentIndicator(Body(s, v, i + 1, p', true) + rest)
               then Error
               else Back(s, v, i + 1, p', true, rest, done + [SPACE])
  {
    Peeled(done, v, i);
  }

  lemma {:induction false} FoldBack(s: Settings, v: seq<int>, i: nat, p: Place, spaces: bool, rest: seq<int>,
                                    column: int, done: seq<int>)
    requires Reads(s, v, i, p, spaces) && RawSpace(s, v, i) && Folds(s, v, i, p, spaces)
    ensures ScanText(Body(s, v, i, p, spaces) + rest, column, done) == Back(s, v, i, p, spaces, rest, done)
    decreases |v| - i - 1, 2
  {
    var p' := AfterChar(s, v, i, p, spaces);
    var b := Body(s, v, i + 1, p', true) + rest;
    PlaceKept(s, v, i, p, spaces);
    FoldVerdict(s, v, i, p, spaces, rest, done);
    if v[i + 1] == SPACE {
      EscapedSpace(s, v, i + 1, p', rest, Margin(s), done + [SPACE]);
      EscapedLine(b, Margin(s), done + [SPACE]);
      MarginBack(s, v, i, p, spaces, rest, column, done, [BACKSLASH] + b);
    } else {
      FoldedLine(s, v, i + 1, p', rest, Margin(s), done + [SPACE]);
      assert [] + b == b;
      MarginBack(s, v, i, p, spaces, rest, column, done, b);
    }
  }

  /** A line that starts with a backslash is never mistaken. */
  lemma {:induction false} EscapedLine(b: seq<int>, margin: nat, done: seq<int>)
    ensures ScanLine([BACKSLASH] + b, margin, done) == ScanText([BACKSLASH] + b, margin, done)
  {
  }

  /** A folded line that does not start with a space is read from its margin on, unless it is mistaken. */
  lemma {:induction false} FoldedLine(s: Settings, v: seq<int>, i: nat, p: Place, rest: seq<int>, margin: nat,
                                      done: seq<int>)
    requires Reads(s, v, i, p, true) && !RawSpace(s, v, i)
    ensures var b := Body(s, v, i, p, true) + rest;
            && b != [] && !IsBlankz(b[0])
            && ScanLine(b, margin, done)
               == if margin == 0 && DocumentIndicator(b) then Error else Back(s, v, i, p, true, rest, done)
    decreases |v| - i, 1
  {
    HeadNotBlank(s, v, i, p, true);
    assert (Body(s, v, i, p, true) + rest)[0] == Body(s, v, i, p, true)[0];
    TextBack(s, v, i, p, true, rest, margin, done);
  }

  lemma {:induction false} SpaceUnescapes(t: seq<int>, column: int, done: seq<int>)
    ensures ScanText([BACKSLASH, SPACE] + t, column, done) == ScanText(t, column + 2, done + [SPACE])
  {
    var u := [BACKSLASH, SPACE] + t;
    assert u[2..] == t && Unescape(u) == Some((SPACE, 2));
  }

  /** A second space, right after a folded one, is escaped by a backslash. */
  lemma {:induction false} EscapedSpace(s: Settings, v: seq<int>, i: nat, p: Place, rest: seq<int>, column: int,
                                        done: seq<int>)
    requires Reads(s, v, i, p, true) && RawSpace(s, v, i) && column >= 0
    ensures ScanText([BACKSLASH] + (Body(s, v, i, p, true) + rest), column, done) == Back(s, v, i, p, true, rest, done)
    decreases |v| - i - 1, 2
  {
    var p' := AfterChar(s, v, i, p, true);
    PlaceKept(s, v, i, p, true);
    var t := Body(s, v, i + 1, p', true) + rest;
    assert [BACKSLASH] + (Body(s, v, i, p, true) + rest) == [BACKSLASH, SPACE] + t;
    SpaceUnescapes(t, column, done);
    TextBack(s, v, i + 1, p', true, rest, column + 2, done + [SPACE]);
    Peeled(done, v, i);
  }

  /** Inside a run of plain spaces: the blanks gathered so far come before the rest of the value. */
  lemma {:induction false} BlankBack(s: Settings, v: seq<int>, i: nat, p: Place, rest: seq<int>, column: int,
                                     done: seq<int>, blanks: seq<int>)
    requires Reads(s, v, i, p, true) && column >= 1
    ensures ScanBlanks(Body(s, v, i, p, true) + rest, column, done, blanks, [], [], false)
            == Back(s, v, i, p, true, rest, done + blanks)
    decreases |v| - i, 1
  {
    var whole := Body(s, v, i, p, true) + rest;
    if RawSpace(s, v, i) {
      var p' := AfterChar(s, v, i, p, true);
      PlaceKept(s, v, i, p, true);
      var t := Body(s, v, i + 1, p', true) + rest;
      assert whole == [SPACE] + t;
      assert whole[1..] == t;
      BlankBack(s, v, i + 1, p', rest, column + 1, done, blanks + [SPACE]);
      Peeled(done + blanks, v, i);
      assert done + (blanks + [SPACE]) == done + blanks + [SPACE];
    } else {
      HeadNotBlank(s, v, i, p, true);
      assert whole[0] == Body(s, v, i, p, true)[0];
      TextBack(s, v, i, p, true, rest, column, done + blanks);
    }
  }

  /**
   Main result: for every value of scalar characters, every width, any starting place, any indent,
   folding and unicode on or off, scanning what was written gives exactly the value, and stops
   right after the closing quote, if and only if no folded line at the left margin starts with
   what looks like a document indicator; otherwise it is an error.
   */
  lemma {:induction false} RoundTripIff(s: Settings, v: seq<int>, p: Place, rest: seq<int>, column: int)
    requires Scalars(v) && column >= 0
    ensures ScanQuoted(Quoted(s, v, p) + rest, column)
            == if Unmistakable(s, v, 0, AfterQuote(p), false, rest) then Done(v, rest) else Error
  {
    var p' := AfterQuote(p);
    var t := Body(s, v, 0, p', false) + rest;
    var whole := Quoted(s, v, p) + rest;
    assert whole[1..] == t;
    TextBack(s, v, 0, p', false, rest, column + 1, []);
    assert [] + v[0..] == v;
    NotAtEnd(s, v, p');
    assert At(t, 0) == Body(s, v, 0, p', false)[0];
  }

  lemma {:induction false} MarginIsUnmistakable(s: Settings, v: seq<int>, i: nat, p: Place, spaces: bool,
                                                rest: seq<int>)
    requires i <= |v| && s.indent >= 1
    ensures Unmistakable(s, v, i, p, spaces, rest)
    decreases |v| - i
  {
    if i < |v| {
      MarginIsUnmistakable(s, v, i + 1, AfterChar(s, v, i, p, spaces), RawSpace(s, v, i), rest);
    }
  }

  /** With an indent of at least one column, as the emitter always has inside a document, every value comes back. */
  lemma {:induction false} RoundTrip(s: Settings, v: seq<int>, p: Place, rest: seq<int>, column: int)
    requires Scalars(v) && s.indent >= 1 && column >= 0
    ensures ScanQuoted(Quoted(s, v, p) + rest, column) == Done(v, rest)
  {
    RoundTripIff(s, v, p, rest, column);
    MarginIsUnmistakable(s, v, 0, AfterQuote(p), false, rest);
  }

  lemma {:induction false} NotAtEnd(s: Settings, v: seq<int>, p: Place)
    requires Scalars(v)
    ensures Body(s, v, 0, p, false) != [] && Body(s, v, 0, p, false)[0] != 0
  {
    if RawSpace(s, v, 0) {
      assert !Folds(s, v, 0, p, false);
    } else {
      HeadNotBlank(s, v, 0, p, false);
    }
  }

  /** With no margin a folded line can start with what looks like a document indicator. */
  lemma {:induction false} NoMarginFails()
    ensures var s := Settings(true, true, 1, 0, LN);
            var v := ['a' as int, SPACE, '-' as int, '-' as int, '-' as int, SPACE, 'b' as int];
            Scalars(v) && ScanQuoted(Quoted(s, v, Place(0, true, true)), 0) == Error
  {
    var s := Settings(true, true, 1, 0, LN);
    var v := ['a' as int, SPACE, '-' as int, '-' as int, '-' as int, SPACE, 'b' as int];
    var p := Place(1, false, false);
    var p1 := Place(2, false, false);
    var p2 := Place(0, true, true);
    assert AfterChar(s, v, 0, p, false) == p1 && AfterChar(s, v, 1, p1, false) == p2;
    var tail := Body(s, v, 2, p2, true);
    assert Spaces(0) == [];
    assert Body(s, v, 1, p1, false) == [0x0A] + tail;
    assert Body(s, v, 0, p, false) == [v[0]] + ([0x0A] + tail);
    DashesFirst(s, v, p2);
    assert Lead(Place(0, true, true)) == [];
    assert Quoted(s, v, Place(0, true, true)) == [QUOTE] + ([v[0]] + ([0x0A] + tail));
    DashesRejected(v[0], tail);
  }

  /** A line feed and then what looks like a document indicator ends the scan in an error. */
  lemma {:induction false} DashesRejected(a: int, tail: seq<int>)
    requires a == 'a' as int && |tail| > 3 && tail[0] == tail[1] == tail[2] == '-' as int && IsBlankz(tail[3])
    ensures ScanQuoted([QUOTE] + ([a] + ([0x0A] + tail)), 0) == Error
  {
    var broken := [0x0A] + tail;
    var t := [a] + broken;
    assert ([QUOTE] + t)[1..] == t && t[1..] == broken && broken[1..] == tail;
    assert [] + [a] == [a] && [] + [0x0A] == [0x0A];
    calc {
      ScanQuoted([QUOTE] + t, 0);
      ScanLine(t, 1, []);
      ScanText(t, 1, []);
      ScanText(broken, 2, [a]);
      ScanBlanks(broken, 2, [a], [], [], [], false);
      { assert BreakWidth(broken) == 1; }
      ScanBlanks(tail, 0, [a], [], [0x0A], [], true);
      ScanLine(tail, 0, [a] + [SPACE]);
      Error;
    }
  }

  lemma {:induction false} DashesFirst(s: Settings, v: seq<int>, p: Place)
    requires s == Settings(true, true, 1, 0, LN) && p == Place(0, true, true)
    requires v == ['a' as int, SPACE, '-' as int, '-' as int, '-' as int, SPACE, 'b' as int]
    ensures var t := Body(s, v, 2, p, true); |t| > 3 && t[0] == t[1] == t[2] == '-' as int && IsBlankz(t[3])
  {
    var d := '-' as int;
    var b5 := Body(s, v, 5, Place(3, true, true), false);
    assert Body(s, v, 4, Place(2, true, true), false) == [d] + b5;
    assert Body(s, v, 3, Place(1, true, true), false) == [d] + ([d] + b5);
    assert Body(s, v, 2, p, true) == [d] + ([d] + ([d] + b5));
    assert BreaksLine(s, Place(3, true, true)) && CharText(s, v, 5, Place(3, true, true), false)[0] == 0x0A;
  }
}
