/** The emitter writing a double-quoted scalar, byte by byte, through its 128-byte output buffer. */
module QuotedWriter {
  import opened Wrappers
  import opened Utf8
  import opened QuotedSpec
  import opened CharClass

  const OUTPUT_SIZE := 128

  function Utf(cs: seq<int>): seq<int> { EncodeAll(Utf8Encoding, cs) }

  lemma {:induction false} UtfAppend(a: seq<int>, b: seq<int>)
    ensures Utf(a + b) == Utf(a) + Utf(b)
  {
    EncodeAllAppend(Utf8Encoding, a, b);
  }

  lemma {:induction false} UtfOne(c: int)
    ensures Utf([c]) == Encode(c)
  {
    assert [c][..0] == [];
    assert Utf([]) == [];
    assert Utf([c]) == [] + Encode(c);
  }

  /** ASCII text is its own encoding. */
  lemma {:induction false} UtfAscii(cs: seq<int>)
    requires forall i :: 0 <= i < |cs| ==> 0 <= cs[i] <= 0x7F
    ensures Utf(cs) == cs
    decreases |cs|
  {
    if cs != [] {
      UtfAscii(cs[..|cs| - 1]);
      assert cs == cs[..|cs| - 1] + [cs[|cs| - 1]];
    }
  }

  lemma {:induction false} HexAscii(v: int, w: nat)
    ensures forall i :: 0 <= i < |Hex(v, w)| ==> 0 <= Hex(v, w)[i] <= 0x7F
    decreases w
  {
    if w > 0 {
      HexAscii(v, w - 1);
    }
  }

  lemma {:induction false} EscapeAscii(c: int)
    ensures forall i :: 0 <= i < |Escape(c)| ==> 0 <= Escape(c)[i] <= 0x7F
  {
    HexAscii(c, 2);
    HexAscii(c, 4);
    HexAscii(c, 8);
  }

  lemma {:induction false} SpacesAscii(n: int)
    ensures forall i :: 0 <= i < |Spaces(n)| ==> Spaces(n)[i] == SPACE
    ensures |Spaces(n)| == if n <= 0 then 0 else n
    decreases n
  {
    if n > 0 {
      SpacesAscii(n - 1);
    }
  }

  lemma {:induction false} SpacesSnoc(n: nat)
    ensures Spaces(n) + [SPACE] == Spaces(n + 1)
    decreases n
  {
    if n > 0 {
      SpacesSnoc(n - 1);
      assert Spaces(n) + [SPACE] == [SPACE] + (Spaces(n - 1) + [SPACE]);
    }
  }

  lemma {:induction false} IndentAscii(s: Settings, p: Place)
    ensures forall i :: 0 <= i < |IndentText(s, p)| ==> 0 <= IndentText(s, p)[i] <= 0x7F
  {
    SpacesAscii(Margin(s));
    SpacesAscii(Margin(s) - p.column);
  }

  // ---------- positions in the value ----------

  /** Byte position `i` of `value` is where character `k` of `v` starts. */
  ghost predicate Aligned(v: seq<int>, value: seq<int>, k: nat, i: nat) {
    k <= |v| && i <= |value| && Scalars(v) && value == Utf(v) && value[i..] == Utf(v[k..])
  }

  lemma {:induction false} AtChar(v: seq<int>, value: seq<int>, k: nat, i: nat)
    requires Aligned(v, value, k, i)
    ensures i < |value| <==> k < |v|
    ensures k < |v| ==> Stands(v[k], value, i) && Aligned(v, value, k + 1, i + |Encode(v[k])|)
  {
    EncodeAllEmpty(Utf8Encoding, v[k..]);
    if k < |v| {
      EncodeAllCons(Utf8Encoding, v[k..]);
      assert v[k..][1..] == v[k + 1..];
      var e := Encode(v[k]);
      forall j | 0 <= j < |e| ensures value[i + j] == e[j] {
        assert value[i + j] == value[i..][j];
      }
      assert value[i + |e|..] == value[i..][|e|..];
    }
  }

  lemma {:induction false} AtEnd(v: seq<int>, value: seq<int>, k: nat, i: nat)
    requires Aligned(v, value, k, i) && i == |value|
    ensures k == |v|
  {
    AtChar(v, value, k, i);
  }

  lemma {:induction false} FirstChar(v: seq<int>, value: seq<int>)
    requires v != [] && Scalars(v) && value == Utf(v)
    ensures Stands(v[0], value, 0)
  {
    assert v[0..] == v && value[0..] == value;
    AtChar(v, value, 0, 0);
  }

  lemma {:induction false} LeftEdge(v: seq<int>, value: seq<int>, k: nat, i: nat)
    requires Aligned(v, value, k, i)
    ensures i > 0 <==> k > 0
  {
    UtfAppend(v[..k], v[k..]);
    assert v == v[..k] + v[k..];
    EncodeAllEmpty(Utf8Encoding, v[..k]);
    assert |value| == |Utf(v[..k])| + |value[i..]|;
  }

  /** A space is neither first nor last among the bytes exactly when it is so among the characters. */
  lemma {:induction false} Edges(v: seq<int>, value: seq<int>, k: nat, i: nat)
    requires Aligned(v, value, k, i) && k < |v| && v[k] == SPACE
    ensures i > 0 <==> k > 0
    ensures i < |value| - 1 <==> k < |v| - 1
    ensures k < |v| - 1 ==> (value[i + 1] == SPACE <==> v[k + 1] == SPACE)
  {
    LeftEdge(v, value, k, i);
    AtChar(v, value, k, i);
    var e := |Encode(v[k])|;
    assert e == 1;
    AtChar(v, value, k + 1, i + e);
    if k < |v| - 1 {
      AsciiBytes(v[k + 1], value, i + 1);
    }
  }

  lemma {:induction false} CharTextUtf(s: Settings, v: seq<int>, k: nat, p: Place, spaces: bool)
    requires k < |v| && Scalars(v)
    ensures var x := CharText(s, v, k, p, spaces);
            Utf(x) == if NeedsEscape(s, v, v[k]) || v[k] == SPACE then x else Encode(v[k])
  {
    var x := CharText(s, v, k, p, spaces);
    if NeedsEscape(s, v, v[k]) {
      EscapeAscii(v[k]);
      UtfAscii(x);
    } else if v[k] == SPACE {
      IndentAscii(s, p);
      UtfAscii(x);
    } else {
      UtfOne(v[k]);
    }
  }

  lemma {:induction false} SpaceText(s: Settings, v: seq<int>, k: nat, p: Place, spaces: bool)
    requires k < |v| && Scalars(v) && v[k] == SPACE && !NeedsEscape(s, v, v[k])
    ensures Utf(CharText(s, v, k, p, spaces))
            == if !Folds(s, v, k, p, spaces) then [SPACE]
               else IndentText(s, p) + if v[k + 1] == SPACE then [BACKSLASH] else []
    ensures AfterChar(s, v, k, p, spaces)
            == if !Folds(s, v, k, p, spaces) then Moved(p, 1)
               else Moved(AfterIndent(s, p), if v[k + 1] == SPACE then 1 else 0)
  {
    CharTextUtf(s, v, k, p, spaces);
  }

  lemma {:induction false} BodyStep(s: Settings, v: seq<int>, k: nat, p: Place, spaces: bool, before: seq<int>)
    requires k < |v|
    ensures var x := CharText(s, v, k, p, spaces);
            var rest := Body(s, v, k + 1, AfterChar(s, v, k, p, spaces), !NeedsEscape(s, v, v[k]) && v[k] == SPACE);
            before + Utf(Body(s, v, k, p, spaces)) == (before + Utf(x)) + Utf(rest)
  {
    var x := CharText(s, v, k, p, spaces);
    var rest := Body(s, v, k + 1, AfterChar(s, v, k, p, spaces), !NeedsEscape(s, v, v[k]) && v[k] == SPACE);
    UtfAppend(x, rest);
    assert (before + Utf(x)) + Utf(rest) == before + (Utf(x) + Utf(rest));
  }

  lemma {:induction false} UtfLead(p: Place)
    ensures Utf(Lead(p) + [QUOTE]) == Lead(p) + [QUOTE]
  {
    UtfAscii(Lead(p) + [QUOTE]);
  }

  lemma {:induction false} JoinLead(before: seq<int>, p: Place, body: seq<int>)
    ensures (before + (Lead(p) + [QUOTE])) + Utf(body) == before + Utf(Lead(p) + ([QUOTE] + body))
  {
    Associate(Lead(p), [QUOTE], body);
    UtfAppend(Lead(p) + [QUOTE], body);
    UtfLead(p);
    Associate(before, Lead(p) + [QUOTE], Utf(body));
  }

  /** What is written after the opening quote completes the quoted form. */
  lemma {:induction false} OpenedThen(s: Settings, v: seq<int>, p: Place, before: seq<int>)
    ensures (before + (Lead(p) + [QUOTE])) + Utf(FromStart(s, v, AfterQuote(p)))
            == before + Utf(Lead(p) + Quoted(s, v, p))
  {
    JoinLead(before, p, FromStart(s, v, AfterQuote(p)));
  }

  class ScalarWriter {
    const settings: Settings
    const buffer: array<int>
    var bufferPos: nat
    /** Bytes handed to the write handler. */
    var sink: seq<int>
    var column: int
    var whitespace: bool
    var indention: bool

    ghost predicate Valid()
      reads this
    {
      buffer.Length == OUTPUT_SIZE && bufferPos <= OUTPUT_SIZE
    }

    ghost function Contents(): seq<int>
      requires Valid()
      reads this, buffer
    {
      sink + buffer[..bufferPos]
    }

    ghost function Here(): Place
      reads this
    {
      Place(column, whitespace, indention)
    }

    constructor (settings: Settings)
      ensures Valid() && this.settings == settings && Contents() == [] && fresh(buffer)
    {
      this.settings := settings;
      buffer := new int[OUTPUT_SIZE];
      bufferPos, sink, column, whitespace, indention := 0, [], 0, true, true;
    }

    method Flush()
      requires Valid()
      modifies this`sink, this`bufferPos
      ensures Valid() && bufferPos == 0 && Contents() == old(Contents())
    {
      sink := sink + buffer[..bufferPos];
      bufferPos := 0;
    }

    /** Room for one character and a line break. */
    method Reserve()
      requires Valid()
      modifies this`sink, this`bufferPos
      ensures Valid() && bufferPos + 5 < OUTPUT_SIZE && Contents() == old(Contents())
    {
      if bufferPos + 5 >= buffer.Length {
        Flush();
      }
    }

    method Store(b: int)
      requires Valid() && bufferPos < OUTPUT_SIZE
      modifies this`bufferPos, buffer
      ensures Valid() && bufferPos == old(bufferPos) + 1 && Contents() == old(Contents()) + [b]
    {
      buffer[bufferPos] := b;
      bufferPos := bufferPos + 1;
      assert buffer[..bufferPos] == old(buffer[..bufferPos]) + [b];
    }

    method Put(b: int)
      requires Valid()
      modifies this`sink, this`bufferPos, this`column, buffer
      ensures Valid() && Contents() == old(Contents()) + [b] && column == old(column) + 1
    {
      Reserve();
      Store(b);
      column := column + 1;
    }

    method PutBreak()
      requires Valid()
      modifies this`sink, this`bufferPos, this`column, buffer
      ensures Valid() && Contents() == old(Contents()) + BreakOf(settings.lineBreak) && column == 0
    {
      Reserve();
      match settings.lineBreak {
        case CR => Store(0x0D);
        case LN => Store(0x0A);
        case CRLN =>
          Store(0x0D);
          Store(0x0A);
      }
      column := 0;
    }

    /** Copy the character at `i`. */
    method Write(s: seq<int>, i: nat, ghost c: int) returns (next: nat)
      requires Valid() && Stands(c, s, i)
      modifies this`sink, this`bufferPos, this`column, buffer
      ensures Valid() && Contents() == old(Contents()) + Encode(c) && column == old(column) + 1
      ensures next == i + |Encode(c)|
    {
      Reserve();
      AsciiBytes(c, s, i);
      var w := Width(s[i]);
      ghost var before := Contents();
      ghost var start := bufferPos;
      for k := 0 to w
        modifies this`bufferPos, buffer
        invariant Valid() && bufferPos == start + k && Contents() == before + Encode(c)[..k]
      {
        Store(s[i + k]);
        assert Encode(c)[..k + 1] == Encode(c)[..k] + [s[i + k]];
      }
      assert Encode(c)[..w] == Encode(c);
      column := column + 1;
      next := i + w;
    }

    /** Spaces up to `indent`. */
    method Pad(indent: int)
      requires Valid()
      modifies this`sink, this`bufferPos, this`column, buffer
      ensures Valid() && Contents() == old(Contents()) + Spaces(indent - old(column))
      ensures column == if old(column) < indent then indent else old(column)
    {
      ghost var start, before := column, Contents();
      assert Spaces(0) == [];
      while column < indent
        invariant Valid() && start <= column && (column <= indent || column == start)
        invariant Contents() == before + Spaces(column - start)
        decreases indent - column
      {
        Put(SPACE);
        SpacesSnoc(column - 1 - start);
      }
      assert start >= indent ==> Spaces(indent - start) == [];
    }

    method WriteIndent()
      requires Valid()
      modifies this, buffer
      ensures Valid() && Contents() == old(Contents()) + IndentText(settings, old(Here()))
      ensures Here() == AfterIndent(settings, old(Here()))
    {
      var indent := if settings.indent < 0 then 0 else settings.indent;
      if !indention || column > indent || (column == indent && !whitespace) {
        PutBreak();
      }
      Pad(indent);
      whitespace, indention := true, true;
    }

    method PutHex(v: int, w: nat)
      requires Valid()
      modifies this`sink, this`bufferPos, this`column, buffer
      ensures Valid() && Contents() == old(Contents()) + Hex(v, w) && column == old(column) + |Hex(v, w)|
    {
      var k := w;
      while k > 0
        invariant Valid() && Contents() + Hex(v, k) == old(Contents()) + Hex(v, w)
        invariant column + |Hex(v, k)| == old(column) + |Hex(v, w)|
      {
        k := k - 1;
        var digit := Shift(v, k) % 16;
        if digit < 10 {
          Put(digit + 0x30);
        } else {
          Put(digit + 0x41 - 10);
        }
      }
    }

    method PutCode(l: int, c: int, w: nat)
      requires Valid()
      modifies this`sink, this`bufferPos, this`column, buffer
      ensures Valid() && Contents() == old(Contents()) + ([BACKSLASH, l] + Hex(c, w))
      ensures column == old(column) + |[BACKSLASH, l] + Hex(c, w)|
    {
      ghost var before := Contents();
      Put(BACKSLASH);
      Put(l);
      PutHex(c, w);
      assert ((before + [BACKSLASH]) + [l]) + Hex(c, w) == before + ([BACKSLASH, l] + Hex(c, w));
    }

    method PutEscape(c: int)
      requires Valid()
      modifies this`sink, this`bufferPos, this`column, buffer
      ensures Valid() && Contents() == old(Contents()) + Escape(c) && column == old(column) + |Escape(c)|
    {
      var l := Letter(c);
      if l.Some? {
        ghost var before := Contents();
        Put(BACKSLASH);
        Put(l.value);
        assert (before + [BACKSLASH]) + [l.value] == before + [BACKSLASH, l.value];
      } else if c <= 0xFF {
        PutCode('x' as int, c, 2);
      } else if c <= 0xFFFF {
        PutCode('u' as int, c, 4);
      } else {
        PutCode('U' as int, c, 8);
      }
    }

    /** The code point at `i`, from its octets. */
    method CodePoint(value: seq<int>, i: nat, ghost c: int) returns (v: int, next: nat)
      requires Stands(c, value, i)
      ensures v == c && next == i + |Encode(c)|
    {
      AsciiBytes(c, value, i);
      ghost var e := Encode(c);
      RawValueOfEncode(c, []);
      assert e + [] == e;
      var w := Width(value[i]);
      v := Leading(value[i], w);
      assert value[i] == e[0];
      for k := 1 to w
        invariant v == PartialValue(e, w, k)
      {
        var octet := value[i + k];
        assert octet == e[k] && Trailing(e[k]);
        v := v * 64 + octet % 64;
      }
      PartialIsRaw(e, w);
      next := i + w;
    }

    method MustEscape(value: seq<int>, i: nat, ghost v: seq<int>, ghost k: nat) returns (yes: bool)
      requires Aligned(v, value, k, i) && k < |v|
      ensures yes == NeedsEscape(settings, v, v[k])
    {
      AtChar(v, value, k, i);
      FirstChar(v, value);
      PrintableBytes(v[k], value, i);
      AsciiBytes(v[k], value, i);
      BomBytes(v[0], value, i);
      BreakBytes(v[k], value, i);
      yes := !PrintableAt(value, i) || (!settings.unicode && !AsciiAt(value, i)) || BomAt(value, i) || BreakAt(value, i)
             || value[i] == QUOTE || value[i] == BACKSLASH;
    }

    method Fold(escapeNext: bool)
      requires Valid()
      modifies this, buffer
      ensures var mark := if escapeNext then [BACKSLASH] else [];
              Valid() && Contents() == old(Contents()) + (IndentText(settings, old(Here())) + mark)
      ensures Here() == Moved(AfterIndent(settings, old(Here())), if escapeNext then 1 else 0)
    {
      WriteIndent();
      if escapeNext {
        Put(BACKSLASH);
      }
    }

    /** A space: a folded line if one is due here, a space otherwise. */
    method WriteSpace(value: seq<int>, i: nat, spaces: bool, ghost v: seq<int>, ghost k: nat) returns (next: nat)
      requires Valid() && Aligned(v, value, k, i) && k < |v| && v[k] == SPACE && !NeedsEscape(settings, v, v[k])
      modifies this, buffer
      ensures Valid() && Contents() == old(Contents()) + Utf(CharText(settings, v, k, old(Here()), spaces))
      ensures Here() == AfterChar(settings, v, k, old(Here()), spaces) && next == i + 1
    {
      SpaceText(settings, v, k, Here(), spaces);
      AtChar(v, value, k, i);
      Edges(v, value, k, i);
      if settings.allowBreaks && !spaces && column > settings.bestWidth && i > 0 && i < |value| - 1 {
        Fold(value[i + 1] == SPACE);
        next := i + 1;
      } else {
        assert Encode(SPACE) == [SPACE];
        next := Write(value, i, SPACE);
      }
    }

    method WriteEscaped(value: seq<int>, i: nat, spaces: bool, ghost v: seq<int>, ghost k: nat) returns (next: nat)
      requires Valid() && Aligned(v, value, k, i) && k < |v| && NeedsEscape(settings, v, v[k])
      modifies this`sink, this`bufferPos, this`column, buffer
      ensures Valid() && Contents() == old(Contents()) + Utf(CharText(settings, v, k, old(Here()), spaces))
      ensures Here() == AfterChar(settings, v, k, old(Here()), spaces) && next == i + |Encode(v[k])|
    {
      CharTextUtf(settings, v, k, Here(), spaces);
      AtChar(v, value, k, i);
      var c;
      c, next := CodePoint(value, i, v[k]);
      PutEscape(c);
    }

    method WritePlain(value: seq<int>, i: nat, spaces: bool, ghost v: seq<int>, ghost k: nat) returns (next: nat)
      requires Valid() && Aligned(v, value, k, i) && k < |v| && v[k] != SPACE && !NeedsEscape(settings, v, v[k])
      modifies this`sink, this`bufferPos, this`column, buffer
      ensures Valid() && Contents() == old(Contents()) + Utf(CharText(settings, v, k, old(Here()), spaces))
      ensures Here() == AfterChar(settings, v, k, old(Here()), spaces) && next == i + |Encode(v[k])|
    {
      CharTextUtf(settings, v, k, Here(), spaces);
      AtChar(v, value, k, i);
      next := Write(value, i, v[k]);
    }

    /** One character of the value. */
    method WriteChar(value: seq<int>, i: nat, spaces: bool, ghost v: seq<int>, ghost k: nat)
      returns (next: nat, space: bool)
      requires Valid() && Aligned(v, value, k, i) && k < |v|
      modifies this, buffer
      ensures Valid() && Contents() == old(Contents()) + Utf(CharText(settings, v, k, old(Here()), spaces))
      ensures Here() == AfterChar(settings, v, k, old(Here()), spaces)
      ensures next == i + |Encode(v[k])| && space == (!NeedsEscape(settings, v, v[k]) && v[k] == SPACE)
    {
      AtChar(v, value, k, i);
      AsciiBytes(v[k], value, i);
      var escape := MustEscape(value, i, v, k);
      space := !escape && value[i] == SPACE;
      if escape {
        next := WriteEscaped(value, i, spaces, v, k);
      } else if space {
        assert |Encode(v[k])| == 1;
        next := WriteSpace(value, i, spaces, v, k);
      } else {
        next := WritePlain(value, i, spaces, v, k);
      }
    }

    method Open()
      requires Valid()
      modifies this, buffer
      ensures Valid() && Contents() == old(Contents()) + (Lead(old(Here())) + [QUOTE])
      ensures Here() == AfterQuote(old(Here()))
    {
      if !whitespace {
        Put(SPACE);
      }
      Put(QUOTE);
      whitespace, indention := false, false;
    }

    /** One turn of the loop: what is written and what is still to write make up the same text. */
    method Turn(value: seq<int>, i: nat, spaces: bool, ghost v: seq<int>, ghost k: nat) returns (next: nat, space: bool)
      requires Valid() && Aligned(v, value, k, i) && k < |v|
      modifies this, buffer
      ensures Valid() && Aligned(v, value, k + 1, next) && i < next <= |value|
      ensures Contents() + Utf(Body(settings, v, k + 1, Here(), space))
              == old(Contents()) + Utf(Body(settings, v, k, old(Here()), spaces))
    {
      AtChar(v, value, k, i);
      BodyStep(settings, v, k, Here(), spaces, Contents());
      next, space := WriteChar(value, i, spaces, v, k);
    }

    method WriteBody(value: seq<int>, ghost v: seq<int>)
      requires Valid() && Scalars(v) && value == Utf(v)
      modifies this, buffer
      ensures Valid() && Contents() == old(Contents()) + Utf(FromStart(settings, v, old(Here())))
    {
      var i, spaces := 0, false;
      ghost var k := 0;
      assert v[0..] == v && value[0..] == value;
      ghost var goal := Contents() + Utf(FromStart(settings, v, Here()));
      while i < |value|
        invariant Valid() && k <= |v| && Aligned(v, value, k, i)
        invariant Contents() + Utf(Body(settings, v, k, Here(), spaces)) == goal
        decreases |value| - i
      {
        AtChar(v, value, k, i);
        i, spaces := Turn(value, i, spaces, v, k);
        k := k + 1;
      }
      AtEnd(v, value, k, i);
      UtfAscii([QUOTE]);
      Put(QUOTE);
    }

    /**
     `value` is UTF-8 text `v`; what is written is its double-quoted form, in UTF-8, however
     often the buffer was flushed.
     */
    method WriteDoubleQuoted(value: seq<int>, ghost v: seq<int>)
      requires Valid() && Scalars(v) && value == Utf(v)
      modifies this, buffer
      ensures Valid() && Contents() == old(Contents()) + Utf(Lead(old(Here())) + Quoted(settings, v, old(Here())))
      ensures !whitespace && !indention
    {
      OpenedThen(settings, v, Here(), Contents());
      Open();
      WriteBody(value, v);
      whitespace, indention := false, false;
    }
  }
}
