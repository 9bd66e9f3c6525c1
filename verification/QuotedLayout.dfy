/**
 How a double-quoted scalar is laid out, read off the text itself: each character stands as
 itself, as an escape or as a folded line, the writer's column is the column of its text, lines
 are broken only past the preferred width, and every character of the text may stand in a stream.
 */
module QuotedLayout {
  import opened Wrappers
  import opened Utf8
  import opened QuotedSpec
  import opened QuotedRoundTrip

  // ---------- columns ----------

  /** The column after `t`, which starts at `column`: characters since the last line break. */
  function ColumnAfter(column: int, t: seq<int>): int
    decreases |t|
  {
    if t == [] then column else ColumnAfter(if IsBreak(t[0]) then 0 else column + 1, t[1..])
  }

  lemma {:induction false} ColumnAppend(column: int, a: seq<int>, b: seq<int>)
    ensures ColumnAfter(column, a + b) == ColumnAfter(ColumnAfter(column, a), b)
    decreases |a|
  {
    if a == [] {
      assert a + b == b;
    } else {
      assert (a + b)[1..] == a[1..] + b;
      ColumnAppend(if IsBreak(a[0]) then 0 else column + 1, a[1..], b);
    }
  }

  ghost predicate Unbroken(t: seq<int>) { forall i :: 0 <= i < |t| ==> !IsBreak(t[i]) }

  lemma {:induction false} ColumnUnbroken(column: int, t: seq<int>)
    requires Unbroken(t)
    ensures ColumnAfter(column, t) == column + |t|
    decreases |t|
  {
    if t != [] {
      ColumnUnbroken(column + 1, t[1..]);
    }
  }

  lemma {:induction false} BreakColumn(column: int, b: LineBreak)
    ensures ColumnAfter(column, BreakOf(b)) == 0
  {
    if b.CRLN? {
      assert BreakOf(b)[1..] == [0x0A];
      assert ColumnAfter(column, BreakOf(b)) == ColumnAfter(0, [0x0A]);
    }
    assert ColumnAfter(0, []) == 0;
  }

  lemma {:induction false} ColumnBreak(column: int, b: LineBreak, n: int)
    requires n >= 0
    ensures ColumnAfter(column, BreakOf(b) + Spaces(n)) == n
  {
    ColumnAppend(column, BreakOf(b), Spaces(n));
    BreakColumn(column, b);
    SpacesAre(n);
    ColumnUnbroken(0, Spaces(n));
  }

  lemma {:induction false} SpacesAre(n: int)
    ensures |Spaces(n)| == (if n < 0 then 0 else n) && forall i :: 0 <= i < |Spaces(n)| ==> Spaces(n)[i] == SPACE
    decreases n
  {
    if n > 0 {
      SpacesAre(n - 1);
    }
  }

  // ---------- the text before a character ----------

  /** Where the writer stands before character `i`. */
  function PlaceAt(s: Settings, v: seq<int>, p: Place, i: nat): Place
    requires i <= |v|
  {
    if i == 0 then p else AfterChar(s, v, i - 1, PlaceAt(s, v, p, i - 1), i > 1 && RawSpace(s, v, i - 2))
  }

  /** What character `i` is written as. */
  function Piece(s: Settings, v: seq<int>, p: Place, i: nat): seq<int>
    requires i < |v|
  {
    CharText(s, v, i, PlaceAt(s, v, p, i), i > 0 && RawSpace(s, v, i - 1))
  }

  /** The text before character `i`. */
  function TextBefore(s: Settings, v: seq<int>, p: Place, i: nat): seq<int>
    requires i <= |v|
  {
    if i == 0 then [] else TextBefore(s, v, p, i - 1) + Piece(s, v, p, i - 1)
  }

  /** The rest of the text from character `i` on. */
  function Rest(s: Settings, v: seq<int>, p: Place, i: nat): seq<int>
    requires i <= |v|
  {
    Body(s, v, i, PlaceAt(s, v, p, i), i > 0 && RawSpace(s, v, i - 1))
  }

  lemma {:induction false} RestNext(s: Settings, v: seq<int>, p: Place, i: nat)
    requires i < |v|
    ensures Rest(s, v, p, i) == Piece(s, v, p, i) + Rest(s, v, p, i + 1)
  {
    assert PlaceAt(s, v, p, i + 1)
           == AfterChar(s, v, i, PlaceAt(s, v, p, i), i > 0 && RawSpace(s, v, i - 1));
  }

  lemma {:induction false} BodyIs(s: Settings, v: seq<int>, p: Place, i: nat)
    requires i <= |v|
    ensures Body(s, v, 0, p, false) == TextBefore(s, v, p, i) + Rest(s, v, p, i)
  {
    if i > 0 {
      BodyIs(s, v, p, i - 1);
      RestNext(s, v, p, i - 1);
      assert TextBefore(s, v, p, i - 1) + (Piece(s, v, p, i - 1) + Rest(s, v, p, i))
             == (TextBefore(s, v, p, i - 1) + Piece(s, v, p, i - 1)) + Rest(s, v, p, i);
    } else {
      assert [] + Body(s, v, 0, p, false) == Body(s, v, 0, p, false);
    }
  }

  // ---------- characters ----------

  /** Characters that stand as themselves; none does in a value that starts with a byte order mark. */
  ghost predicate Bare(s: Settings, v: seq<int>, c: int) {
    && (0x20 <= c <= 0x7E || (s.unicode && (0xA0 <= c <= 0xD7FF || (0xE000 <= c <= 0xFFFD && c != 0xFEFF))))
    && c != '"' as int && c != '\\' as int && c != 0x2028 && c != 0x2029
    && (v == [] || v[0] != 0xFEFF)
  }

  lemma {:induction false} BareIs(s: Settings, v: seq<int>, c: int)
    ensures Bare(s, v, c) <==> !NeedsEscape(s, v, c)
  {
  }

  /** An escape is two characters long if it has a letter, else long enough for two, four or eight digits. */
  ghost predicate EscapeLength(c: int, n: int) {
    if c in {0x00, 0x07, 0x08, 0x09, 0x0A, 0x0B, 0x0C, 0x0D, 0x1B, 0x22, 0x5C, 0x85, 0xA0, 0x2028, 0x2029} then n == 2
    else if c < 0x100 then n == 4
    else if c < 0x10000 then n == 6
    else n == 10
  }

  /** `t` is an escape that reads as `c`: ASCII letters and digits after a backslash. */
  ghost predicate Escapes(c: int, t: seq<int>) {
    && t != [] && Unescape(t) == Some((c, |t|)) && EscapeLength(c, |t|) && Unbroken(t)
    && forall i :: 0 <= i < |t| ==> 0x20 <= t[i] <= 0x7E
  }

  lemma {:induction false} HexPlain(v: int, w: nat)
    ensures |Hex(v, w)| == w && forall i :: 0 <= i < w ==> 0x30 <= Hex(v, w)[i] <= 0x46
    decreases w
  {
    if w > 0 {
      HexPlain(v, w - 1);
      DigitRound(Shift(v, w - 1) % 16);
    }
  }

  lemma {:induction false} EscapePlain(c: int)
    requires Scalar(c)
    ensures EscapeLength(c, |Escape(c)|)
    ensures forall i :: 0 <= i < |Escape(c)| ==> 0x20 <= Escape(c)[i] <= 0x7E
  {
    if Letter(c).None? {
      HexPlain(c, 2);
      HexPlain(c, 4);
      HexPlain(c, 8);
    }
  }

  lemma {:induction false} EscapeEscapes(c: int)
    requires Scalar(c)
    ensures Escapes(c, Escape(c))
  {
    assert Escape(c) + [] == Escape(c);
    EscapeRound(c, []);
    EscapePlain(c);
  }

  // ---------- columns of the text written ----------

  lemma {:induction false} IndentColumn(s: Settings, p: Place)
    ensures ColumnAfter(p.column, IndentText(s, p)) == AfterIndent(s, p).column
  {
    if BreaksLine(s, p) {
      ColumnBreak(p.column, s.lineBreak, Margin(s));
    } else {
      SpacesAre(Margin(s) - p.column);
      ColumnUnbroken(p.column, Spaces(Margin(s) - p.column));
    }
  }

  lemma {:induction false} PieceColumn(s: Settings, v: seq<int>, i: nat, p: Place, spaces: bool)
    requires i < |v| && Scalar(v[i])
    ensures AfterChar(s, v, i, p, spaces).column == ColumnAfter(p.column, CharText(s, v, i, p, spaces))
  {
    if NeedsEscape(s, v, v[i]) {
      EscapeEscapes(v[i]);
      ColumnUnbroken(p.column, Escape(v[i]));
    } else if v[i] == SPACE && Folds(s, v, i, p, spaces) {
      var tail := if v[i + 1] == SPACE then [BACKSLASH] else [];
      IndentColumn(s, p);
      ColumnAppend(p.column, IndentText(s, p), tail);
      ColumnUnbroken(AfterIndent(s, p).column, tail);
    } else {
      ColumnUnbroken(p.column, [v[i]]);
    }
  }

  /** The writer's column is the column of the text it has written. */
  lemma {:induction false} ColumnTracks(s: Settings, v: seq<int>, p: Place, i: nat)
    requires i <= |v| && Scalars(v)
    ensures PlaceAt(s, v, p, i).column == ColumnAfter(p.column, TextBefore(s, v, p, i))
  {
    if i > 0 {
      ColumnTracks(s, v, p, i - 1);
      PieceColumn(s, v, i - 1, PlaceAt(s, v, p, i - 1), i > 1 && RawSpace(s, v, i - 2));
      ColumnAppend(p.column, TextBefore(s, v, p, i - 1), Piece(s, v, p, i - 1));
    }
  }

  // ---------- the layout ----------

  /** Character `i` is a space inside the value, not directly after another. */
  ghost predicate LoneSpace(v: seq<int>, i: nat) {
    0 < i < |v| - 1 && v[i] == 0x20 && v[i - 1] != 0x20
  }

  /** A line break of the chosen kind, the margin, and a backslash if a space comes first on the new line. */
  ghost predicate FoldedLine(s: Settings, t: seq<int>, next: int) {
    var b := match s.lineBreak case CR => [0x0D] case LN => [0x0A] case CRLN => [0x0D, 0x0A];
    var n := if s.indent > 0 then s.indent else 0;
    && |t| == |b| + n + (if next == 0x20 then 1 else 0)
    && t[..|b|] == b && (forall k :: |b| <= k < |b| + n ==> t[k] == 0x20)
    && (next == 0x20 ==> t[|t| - 1] == '\\' as int)
  }

  /** How character `i` stands in the text, `column` characters into its line. */
  ghost predicate Stands(s: Settings, v: seq<int>, i: nat, column: int, t: seq<int>)
    requires i < |v|
  {
    if !Bare(s, v, v[i]) then Escapes(v[i], t)
    else if LoneSpace(v, i) && s.allowBreaks && column > s.bestWidth then FoldedLine(s, t, v[i + 1])
    else t == [v[i]]
  }

  /** The column of the text before character `i`. */
  function ColumnAt(s: Settings, v: seq<int>, p: Place, i: nat): int
    requires i <= |v|
  {
    ColumnAfter(p.column, TextBefore(s, v, p, i))
  }

  lemma {:induction false} PlacesOk(s: Settings, v: seq<int>, p: Place, i: nat)
    requires i <= |v| && Scalars(v) && PlaceOk(s, p, false)
    ensures PlaceOk(s, PlaceAt(s, v, p, i), i > 0 && RawSpace(s, v, i - 1))
  {
    if i > 0 {
      PlacesOk(s, v, p, i - 1);
      PlaceKept(s, v, i - 1, PlaceAt(s, v, p, i - 1), i > 1 && RawSpace(s, v, i - 2));
    }
  }

  lemma {:induction false} FoldStands(s: Settings, p: Place, next: int)
    requires BreaksLine(s, p)
    ensures FoldedLine(s, IndentText(s, p) + (if next == SPACE then [BACKSLASH] else []), next)
  {
    SpacesAre(Margin(s));
  }

  lemma {:induction false} PieceStands(s: Settings, v: seq<int>, p: Place, i: nat)
    requires i < |v| && Scalars(v) && PlaceOk(s, p, false)
    ensures Stands(s, v, i, ColumnAt(s, v, p, i), Piece(s, v, p, i))
  {
    var place, spaces := PlaceAt(s, v, p, i), i > 0 && RawSpace(s, v, i - 1);
    BareIs(s, v, v[i]);
    if NeedsEscape(s, v, v[i]) {
      EscapeEscapes(v[i]);
    } else {
      ColumnTracks(s, v, p, i);
      PlacesOk(s, v, p, i);
      BareIs(s, v, SPACE);
      if v[i] == SPACE && Folds(s, v, i, place, spaces) {
        PlaceKept(s, v, i, place, spaces);
        FoldStands(s, place, v[i + 1]);
      }
    }
  }

  /**
   Main result: a value of n characters is written as n pieces between two quotes.  Piece i is the
   character itself, an escape of it, or, for a lone space past the preferred width, a new line.
   */
  lemma {:induction false} LayoutIs(s: Settings, v: seq<int>, p: Place)
    requires Scalars(v)
    ensures Quoted(s, v, p) == ['"' as int] + TextBefore(s, v, AfterQuote(p), |v|) + ['"' as int]
    ensures AfterQuote(p).column == p.column + if p.whitespace then 1 else 2
    ensures forall i :: 0 <= i < |v| ==>
              Stands(s, v, i, ColumnAt(s, v, AfterQuote(p), i), Piece(s, v, AfterQuote(p), i))
  {
    BodyIs(s, v, AfterQuote(p), |v|);
    assert Rest(s, v, AfterQuote(p), |v|) == ['"' as int];
    forall i | 0 <= i < |v|
      ensures Stands(s, v, i, ColumnAt(s, v, AfterQuote(p), i), Piece(s, v, AfterQuote(p), i))
    {
      PieceStands(s, v, AfterQuote(p), i);
    }
  }

  // ---------- the text may stand in a stream ----------

  lemma {:induction false} FoldedAllowed(s: Settings, t: seq<int>, next: int)
    requires FoldedLine(s, t, next)
    ensures AllAllowed(t)
  {
  }

  lemma {:induction false} TextAllowed(s: Settings, v: seq<int>, p: Place, i: nat)
    requires i <= |v| && Scalars(v) && PlaceOk(s, p, false)
    ensures AllAllowed(TextBefore(s, v, p, i))
  {
    if i > 0 {
      TextAllowed(s, v, p, i - 1);
      PieceStands(s, v, p, i - 1);
      var t := Piece(s, v, p, i - 1);
      if Bare(s, v, v[i - 1]) && t != [v[i - 1]] {
        FoldedAllowed(s, t, v[i]);
      }
    }
  }

  /**
   The reader's table of characters and the emitter's agree: all that is printable may be read,
   and besides only tab, CR, NEL, the byte order mark and the supplementary planes.
   */
  lemma {:induction false} TablesAgree(c: int)
    ensures Allowed(c) <==> IsPrintable(c) || c in {0x09, 0x0D, 0x85, 0xFEFF} || 0x10000 <= c <= 0x10FFFF
    ensures Allowed(c) ==> Scalar(c)
    ensures IsBreak(c) <==> c in {0x0A, 0x0D, 0x85, 0x2028, 0x2029}
  {
  }

  /** Whatever the value, what is written is text the reader accepts. */
  lemma {:induction false} QuotedAllowed(s: Settings, v: seq<int>, p: Place)
    requires Scalars(v)
    ensures AllAllowed(Quoted(s, v, p))
  {
    LayoutIs(s, v, p);
    TextAllowed(s, v, AfterQuote(p), |v|);
  }
}
