/** The character tests on bytes, and the characters they accept when the bytes are UTF-8. */
module CharClass {
  import opened Utf8
  import opened QuotedSpec

  predicate AsciiAt(b: seq<int>, i: nat) { At(b, i) <= 0x7F }

  predicate PrintableAt(b: seq<int>, i: nat) {
    || At(b, i) == 0x0A
    || 0x20 <= At(b, i) <= 0x7E
    || (At(b, i) == 0xC2 && At(b, i + 1) >= 0xA0)
    || (At(b, i) > 0xC2 && At(b, i) < 0xED)
    || (At(b, i) == 0xED && At(b, i + 1) < 0xA0)
    || At(b, i) == 0xEE
    || (At(b, i) == 0xEF
        && !(At(b, i + 1) == 0xBB && At(b, i + 2) == 0xBF)
        && !(At(b, i + 1) == 0xBF && (At(b, i + 2) == 0xBE || At(b, i + 2) == 0xBF)))
  }

  /** The source tests the start of the buffer whatever the position. */
  predicate BomAt(b: seq<int>, i: nat) { At(b, 0) == 0xEF && At(b, 1) == 0xBB && At(b, 2) == 0xBF }

  predicate BreakAt(b: seq<int>, i: nat) {
    || At(b, i) == 0x0D || At(b, i) == 0x0A
    || (At(b, i) == 0xC2 && At(b, i + 1) == 0x85)
    || (At(b, i) == 0xE2 && At(b, i + 1) == 0x80 && At(b, i + 2) == 0xA8)
    || (At(b, i) == 0xE2 && At(b, i + 1) == 0x80 && At(b, i + 2) == 0xA9)
  }

  predicate BlankAt(b: seq<int>, i: nat) { At(b, i) == 0x20 || At(b, i) == 0x09 }

  predicate BlankzAt(b: seq<int>, i: nat) { BlankAt(b, i) || BreakAt(b, i) || At(b, i) == 0 }

  /** The bytes of `c` stand at `i`. */
  ghost predicate Stands(c: int, b: seq<int>, i: nat) {
    Scalar(c) && i + |Encode(c)| <= |b| && forall k :: 0 <= k < |Encode(c)| ==> b[i + k] == Encode(c)[k]
  }

  lemma {:induction false} PrintableBytes(c: int, b: seq<int>, i: nat)
    requires Stands(c, b, i)
    ensures PrintableAt(b, i) <==> IsPrintable(c)
  {
    var e := Encode(c);
    assert b[i] == e[0];
    if |e| >= 2 { assert b[i + 1] == e[1]; }
    if |e| == 3 { assert b[i + 2] == e[2]; }
  }

  lemma {:induction false} BreakBytes(c: int, b: seq<int>, i: nat)
    requires Stands(c, b, i)
    ensures BreakAt(b, i) <==> IsBreak(c)
  {
    var e := Encode(c);
    assert b[i] == e[0];
    if |e| >= 2 { assert b[i + 1] == e[1]; }
    if |e| == 3 { assert b[i + 2] == e[2]; }
  }

  lemma {:induction false} BomBytes(c: int, b: seq<int>, i: nat)
    requires Stands(c, b, 0)
    ensures BomAt(b, i) <==> c == BOM
  {
    var e := Encode(c);
    assert b[0] == e[0];
    if |e| >= 2 { assert b[1] == e[1]; }
    if |e| == 3 { assert b[2] == e[2]; }
  }

  /** Tests against one ASCII byte, and the width the first byte announces. */
  lemma {:induction false} AsciiBytes(c: int, b: seq<int>, i: nat)
    requires Stands(c, b, i)
    ensures AsciiAt(b, i) <==> c <= 0x7F
    ensures if c <= 0x7F then b[i] == c else b[i] > 0x7F
    ensures Width(b[i]) == |Encode(c)|
    ensures BlankzAt(b, i) <==> IsBlankz(c)
  {
    assert b[i] == Encode(c)[0];
    EncodeWidth(c);
    BreakBytes(c, b, i);
  }
}
