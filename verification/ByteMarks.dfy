/** Byte order marks: each encoding's is the character U+FEFF as that encoding writes it (section 4.1 of RFC 2781). */
module ByteMarks {
  import opened Utf8
  import opened Reader

  const MARK := 0xFEFF

  /** `bytes` start with the mark of `enc`. */
  ghost predicate StartsWith(bytes: seq<int>, enc: Encoding) { EncodeAs(enc, MARK) <= bytes }

  lemma {:induction false} MarkBytes()
    ensures EncodeAs(Utf16LE, MARK) == [0xFF, 0xFE] && EncodeAs(Utf16BE, MARK) == [0xFE, 0xFF]
    ensures EncodeAs(Utf8Encoding, MARK) == [0xEF, 0xBB, 0xBF]
  {
  }

  /** The mark a source starts with gives its encoding and is left out; without one the source is UTF-8. */
  lemma {:induction false} MarkDecides(bytes: seq<int>, enc: Encoding)
    ensures StartsWith(bytes, enc) <==> Detect(bytes) == (enc, |EncodeAs(enc, MARK)|)
    ensures (forall e :: !StartsWith(bytes, e)) <==> Detect(bytes) == (Utf8Encoding, 0)
  {
    MarkBytes();
    assert StartsWith(bytes, Utf16LE) <==> |bytes| >= 2 && bytes[0] == 0xFF && bytes[1] == 0xFE;
    assert StartsWith(bytes, Utf16BE) <==> |bytes| >= 2 && bytes[0] == 0xFE && bytes[1] == 0xFF;
    assert StartsWith(bytes, Utf8Encoding) <==>
        |bytes| >= 3 && bytes[0] == 0xEF && bytes[1] == 0xBB && bytes[2] == 0xBF;
  }

  /** A mark and a text in its encoding are read as that text. */
  lemma {:induction false} MarkedText(enc: Encoding, cs: seq<int>)
    ensures Detect(EncodeAs(enc, MARK) + EncodeAll(enc, cs)) == (enc, |EncodeAs(enc, MARK)|)
  {
    MarkDecides(EncodeAs(enc, MARK) + EncodeAll(enc, cs), enc);
  }
}
