/**
 The byte reader: bytes arrive in chunks of any size, are decoded from a 512-byte raw buffer
 and re-encoded as UTF-8 into a 1536-byte working buffer that is shifted in place.
 */
module Reader {
  import opened Wrappers
  import opened Utf8

  const RAW_SIZE := 512
  const BUFFER_SIZE := 1536

  datatype Status = Fine | ReadError | Undecodable

  /** The encoding a byte order mark selects, and the mark's length. */
  function Detect(bytes: seq<int>): (Encoding, nat) {
    if |bytes| >= 2 && bytes[0] == 0xFF && bytes[1] == 0xFE then (Utf16LE, 2)
    else if |bytes| >= 2 && bytes[0] == 0xFE && bytes[1] == 0xFF then (Utf16BE, 2)
    else if |bytes| >= 3 && bytes[0] == 0xEF && bytes[1] == 0xBB && bytes[2] == 0xBF then (Utf8Encoding, 3)
    else (Utf8Encoding, 0)
  }

  /** Three bytes, or all there are, decide. */
  lemma {:induction false} DetectEarly(avail: seq<int>, rest: seq<int>)
    requires |avail| >= 3 || rest == []
    ensures Detect(avail) == Detect(avail + rest) && Detect(avail).1 <= |avail|
  {
    assert rest == [] ==> avail + rest == avail;
  }

  /** `bytes` is some text in encoding `enc`. */
  ghost predicate Decodable(enc: Encoding, bytes: seq<int>) {
    exists cs :: AllAllowed(cs) && bytes == EncodeAll(enc, cs)
  }

  /** Re-encoding grows a character by half at most. */
  lemma {:induction false} Grows(enc: Encoding, c: int)
    requires Allowed(c)
    ensures 2 * |Encode(c)| <= 3 * |EncodeAs(enc, c)|
  {
  }

  /** The first character of a decodable rest is either complete, and decodes, or cut short, and waits. */
  lemma {:induction false} HeadDecodes(enc: Encoding, raw: seq<int>, input: seq<int>, cs: seq<int>)
    requires raw != [] && AllAllowed(cs) && raw + input == EncodeAll(enc, cs)
    ensures !DecodeStep(enc, raw).Bad? && (input == [] ==> DecodeStep(enc, raw).Char?)
  {
    EncodeAllEmpty(enc, cs);
    EncodeAllCons(enc, cs);
    var head := EncodeAs(enc, cs[0]);
    var tail := EncodeAll(enc, cs[1..]);
    if |raw| >= |head| {
      assert raw == (raw + input)[..|raw|] == head + tail[..|raw| - |head|];
      StepInverts(enc, cs[0], tail[..|raw| - |head|]);
    } else {
      assert raw == (raw + input)[..|raw|] == head[..|raw|];
      StepWaits(enc, cs[0], |raw|);
    }
  }

  lemma {:induction false} BadIsUndecodable(enc: Encoding, chars: seq<int>, raw: seq<int>, input: seq<int>)
    requires raw != [] && AllAllowed(chars)
    requires DecodeStep(enc, raw).Bad? || (DecodeStep(enc, raw).More? && input == [])
    ensures !Decodable(enc, EncodeAll(enc, chars) + (raw + input))
  {
    var whole := EncodeAll(enc, chars) + (raw + input);
    forall cs | AllAllowed(cs) && whole == EncodeAll(enc, cs) ensures false {
      DecodingUnique(enc, chars, raw + input, cs);
      HeadDecodes(enc, raw, input, cs[|chars|..]);
    }
  }

  lemma {:induction false} Regroup(done: seq<int>, raw: seq<int>, w: nat, input: seq<int>)
    requires w <= |raw|
    ensures done + (raw + input) == (done + raw[..w]) + (raw[w..] + input)
  {
  }

  /** Taking one decoded character off the raw bytes. */
  lemma {:induction false} TakeChar(enc: Encoding, chars: seq<int>, raw: seq<int>, input: seq<int>)
    requires raw != [] && Bytes(raw) && DecodeStep(enc, raw).Char?
    ensures var d := DecodeStep(enc, raw);
            && EncodeAll(enc, chars) + (raw + input) == EncodeAll(enc, chars + [d.value]) + (raw[d.width..] + input)
            && Allowed(d.value) && 2 * |Encode(d.value)| <= 3 * d.width
  {
    var d := DecodeStep(enc, raw);
    StepExact(enc, raw);
    Grows(enc, d.value);
    EncodeAllSnoc(enc, chars, d.value);
    Regroup(EncodeAll(enc, chars), raw, d.width, input);
  }

  lemma {:induction false} Utf8Size(cs: seq<int>)
    ensures |cs| <= |EncodeAll(Utf8Encoding, cs)| <= 4 * |cs|
    decreases |cs|
  {
    if cs != [] {
      Utf8Size(cs[..|cs| - 1]);
    }
  }

  lemma {:induction false} AfterMark(avail: seq<int>, input: seq<int>, n: nat, e: Encoding)
    requires n <= |avail|
    ensures (avail + input)[n..] == EncodeAll(e, []) + (avail[n..] + input)
  {
    assert EncodeAll(e, []) == [];
  }

  lemma {:induction false} HeadScalar(seen: seq<int>, pending: seq<int>, chars: seq<int>, end: seq<int>)
    requires seen + pending == chars + end && AllAllowed(chars) && pending != [] && (end == [] || end == [0])
    ensures Scalar(pending[0])
  {
    assert pending[0] == (seen + pending)[|seen|];
  }

  lemma {:induction false} HeadMoves(seen: seq<int>, pending: seq<int>)
    requires pending != []
    ensures (seen + [pending[0]]) + pending[1..] == seen + pending
  {
  }

  lemma {:induction false} HeadOfText(cs: seq<int>, bytes: seq<int>)
    requires cs != [] && Scalar(cs[0]) && bytes == EncodeAll(Utf8Encoding, cs)
    ensures bytes != [] && Width(bytes[0]) <= |bytes| && bytes[Width(bytes[0])..] == EncodeAll(Utf8Encoding, cs[1..])
  {
    EncodeAllCons(Utf8Encoding, cs);
    EncodeWidth(cs[0]);
    assert bytes[0] == Encode(cs[0])[0];
  }

  class ByteReader {
    const raw: array<int>
    var rawLen: nat
    var rawPos: nat
    const buffer: array<int>
    var bufLen: nat
    var bufPos: nat
    var unread: nat
    var eof: bool
    var encoding: Option<Encoding>
    /** Bytes the source has not delivered yet. */
    var input: seq<int>

    /** Every byte of the source. */
    ghost const total: seq<int>
    /** Decoded so far; taken by the scanner; still in the working buffer; the final NUL has been put. */
    ghost var chars: seq<int>
    ghost var seen: seq<int>
    ghost var pending: seq<int>
    ghost var ended: bool

    ghost predicate RawShape()
      reads this`rawPos, this`rawLen
    {
      raw.Length == RAW_SIZE && raw != buffer && rawPos <= rawLen <= RAW_SIZE
    }

    ghost predicate BufShape()
      reads this`bufPos, this`bufLen
    {
      buffer.Length == BUFFER_SIZE && bufPos <= bufLen <= BUFFER_SIZE
    }

    ghost function RawView(): seq<int>
      requires RawShape()
      reads this`rawPos, this`rawLen, raw
    {
      raw[rawPos..rawLen]
    }

    ghost function BufView(): seq<int>
      requires BufShape()
      reads this`bufPos, this`bufLen, buffer
    {
      buffer[bufPos..bufLen]
    }

    /** Bytes decoded, bytes waiting in the raw buffer and bytes to come make up the source after its mark. */
    ghost predicate Accounted()
      reads this`rawPos, this`rawLen, this`input, this`eof, this`chars, this`encoding, raw
    {
      && RawShape() && Bytes(total) && AllAllowed(chars) && (eof ==> input == [])
      && match encoding
         case None => chars == [] && total == RawView() + input
         case Some(e) => && e == Detect(total).0 && Detect(total).1 <= |total|
                         && total[Detect(total).1..] == EncodeAll(e, chars) + (RawView() + input)
    }

    /** The working buffer holds, as UTF-8, exactly the characters not yet taken. */
    ghost predicate Holds()
      reads this`bufPos, this`bufLen, this`unread, this`pending, buffer
    {
      BufShape() && BufView() == EncodeAll(Utf8Encoding, pending) && |pending| == unread
    }

    /** What was taken and what is pending is the text so far; a NUL ends it. */
    ghost predicate Textual()
      reads this`seen, this`pending, this`chars, this`ended
    {
      seen + pending == chars + (if ended then [0] else [])
    }

    ghost predicate Valid()
      reads this, raw, buffer
    {
      && Accounted() && Holds() && Textual()
      && (eof <==> ended) && (ended ==> RawView() == [] && encoding.Some?)
    }

    constructor (source: seq<int>)
      requires Bytes(source)
      ensures Valid() && total == source && seen == [] && pending == [] && !ended && fresh(raw) && fresh(buffer)
    {
      raw := new int[RAW_SIZE];
      buffer := new int[BUFFER_SIZE];
      rawLen, rawPos, bufLen, bufPos, unread := 0, 0, 0, 0, 0;
      eof, encoding, input, total := false, None, source, source;
      chars, seen, pending, ended := [], [], [], false;
    }

    // ---------- the raw buffer ----------

    /** Move the bytes not yet decoded to the front. */
    method ShiftRaw()
      requires RawShape()
      modifies this`rawLen, this`rawPos, raw
      ensures RawShape() && rawPos == 0 && RawView() == old(RawView())
    {
      ghost var live := RawView();
      var n := rawLen - rawPos;
      for i := 0 to n
        modifies raw
        invariant forall k :: 0 <= k < i ==> raw[k] == live[k]
        invariant forall k :: i <= k < n ==> raw[rawPos + k] == live[k]
      {
        raw[i] := raw[rawPos + i];
      }
      rawLen, rawPos := n, 0;
      assert raw[0..n] == live;
    }

    /**
     The read handler: some bytes, as many as it likes; or the end of the input, alone or with
     the last bytes; or an error.
     */
    method Fill() returns (status: Status)
      requires RawShape() && rawPos == 0 && rawLen < RAW_SIZE && !eof
      modifies this`rawLen, this`input, this`eof, raw
      ensures RawShape() && RawView() + input == old(RawView() + input) && (eof ==> input == [])
      ensures status == Fine ==> |input| < |old(input)| || eof
      ensures status != Undecodable && |input| <= |old(input)|
    {
      if * { return ReadError; }
      if input == [] {
        eof := true;
        return Fine;
      }
      var n: nat :| 1 <= n <= |input| && rawLen + n <= RAW_SIZE;
      ghost var before := RawView();
      for i := 0 to n
        modifies raw
        invariant raw[..rawLen] == before
        invariant forall k :: 0 <= k < i ==> raw[rawLen + k] == input[k]
      {
        raw[rawLen + i] := input[i];
      }
      assert raw[..rawLen + n] == before + input[..n];
      assert input == input[..n] + input[n..];
      rawLen, input := rawLen + n, input[n..];
      if input == [] {
        if * { eof := true; }
      }
      return Fine;
    }

    method UpdateRawBuffer() returns (status: Status)
      requires RawShape()
      modifies this`rawLen, this`rawPos, this`input, this`eof, raw
      ensures RawShape() && RawView() + input == old(RawView() + input)
      ensures (old(eof ==> input == []) ==> (eof ==> input == [])) && (old(eof) ==> eof)
      ensures status == Fine && !old(eof) && |old(RawView())| < RAW_SIZE ==> |input| < |old(input)| || eof
      ensures old(eof) ==> RawView() == old(RawView())
      ensures status != Undecodable && |input| <= |old(input)|
    {
      if rawPos == 0 && rawLen == RAW_SIZE { return Fine; }
      if eof { return Fine; }
      ShiftRaw();
      status := Fill();
    }

    // ---------- decoding ----------

    /** Decode the UTF-8 character at the raw position, octet by octet. */
    method ReadUtf8() returns (step: Step)
      requires RawShape() && rawPos < rawLen
      ensures step == DecodeUtf8(RawView())
    {
      var octet := raw[rawPos];
      var width := Width(octet);
      if width == 0 { return Bad; }
      if width > rawLen - rawPos { return More; }
      ghost var bytes := RawView();
      var value := Leading(octet, width);
      for k := 1 to width
        invariant forall j :: 1 <= j < k ==> Trailing(bytes[j])
        invariant value == PartialValue(bytes, width, k)
      {
        octet := raw[rawPos + k];
        assert octet == bytes[k];
        if !Trailing(octet) { return Bad; }
        value := value * 64 + (octet - 0x80);
      }
      PartialIsRaw(bytes, width);
      if !ProperLength(value, width) { return Bad; }
      if !Scalar(value) { return Bad; }
      return Char(value, width);
    }

    method ReadChar(enc: Encoding) returns (step: Step)
      requires RawShape() && rawPos < rawLen
      ensures step == DecodeStep(enc, RawView())
    {
      if enc.Utf8Encoding? {
        step := ReadUtf8();
      } else {
        step := Decode16(enc, raw[rawPos..rawLen]);
      }
      if step.Char? && !Allowed(step.value) { return Bad; }
    }

    method PutByte(b: int)
      requires BufShape() && bufLen < BUFFER_SIZE
      modifies this`bufLen, buffer
      ensures BufShape() && BufView() == old(BufView()) + [b] && bufLen == old(bufLen) + 1
    {
      buffer[bufLen] := b;
      bufLen := bufLen + 1;
    }

    method PutBytes(b: int, c: int)
      requires BufShape() && bufLen + 2 <= BUFFER_SIZE
      modifies this`bufLen, buffer
      ensures BufShape() && BufView() == old(BufView()) + [b, c] && bufLen == old(bufLen) + 2
    {
      PutByte(b);
      PutByte(c);
    }

    /** Append the UTF-8 bytes of `c` to the working buffer. */
    method Put(c: int)
      requires BufShape() && bufLen + |Encode(c)| <= BUFFER_SIZE
      modifies this`bufLen, buffer
      ensures BufShape() && BufView() == old(BufView()) + Encode(c)
    {
      ghost var before := BufView();
      var last, middle := 0x80 + c % 64, 0x80 + c / 64 % 64;
      if c <= 0x7F {
        PutByte(c);
      } else if c <= 0x7FF {
        PutBytes(0xC0 + c / 64, last);
      } else if c <= 0xFFFF {
        var lead := 0xE0 + c / 4096;
        PutByte(lead);
        PutBytes(middle, last);
        assert BufView() == before + [lead, middle, last];
      } else {
        var lead, second := 0xF0 + c / 262144, 0x80 + c / 4096 % 64;
        PutBytes(lead, second);
        PutBytes(middle, last);
        assert BufView() == before + [lead, second, middle, last];
      }
    }

    /** Everything the decoding loop keeps; the final NUL is not there yet. */
    ghost predicate Decoding(e: Encoding)
      reads this, raw, buffer
    {
      Accounted() && Holds() && Textual() && encoding == Some(e) && !ended
    }

    method AdvanceRaw(e: Encoding, step: Step)
      requires Accounted() && encoding == Some(e)
      requires rawPos < rawLen && step == DecodeStep(e, RawView()) && step.Char?
      modifies this`rawPos, this`chars
      ensures Accounted() && chars == old(chars) + [step.value] && Allowed(step.value)
      ensures RawView() == old(RawView())[step.width..] && 2 * |Encode(step.value)| <= 3 * step.width
    {
      ghost var bytes := RawView();
      RawIsBytes();
      TakeChar(e, chars, bytes, input);
      rawPos := rawPos + step.width;
      assert RawView() == bytes[step.width..];
      chars := chars + [step.value];
    }

    method PutPending(c: int)
      requires Holds() && bufLen + |Encode(c)| <= BUFFER_SIZE
      modifies this`bufLen, this`unread, this`pending, buffer
      ensures Holds() && pending == old(pending) + [c] && bufLen == old(bufLen) + |Encode(c)|
    {
      ghost var before := BufView();
      Put(c);
      EncodeAllSnoc(Utf8Encoding, pending, c);
      assert |BufView()| == |before| + |Encode(c)|;
      unread, pending := unread + 1, pending + [c];
    }

    /** The raw buffer is another array. */
    method AppendChar(c: int)
      requires Accounted() && Holds() && bufLen + |Encode(c)| <= BUFFER_SIZE
      modifies this`bufLen, this`unread, this`pending, buffer
      ensures Accounted() && RawView() == old(RawView())
      ensures Holds() && pending == old(pending) + [c] && bufLen == old(bufLen) + |Encode(c)|
      ensures seen + pending == old(seen + pending) + [c]
    {
      Associate(seen, pending, [c]);
      ghost var waiting := RawView();
      PutPending(c);
      assert RawView() == waiting;
    }

    /** Move one decoded character from the raw buffer to the working buffer. */
    method MoveChar(e: Encoding, step: Step)
      requires Decoding(e) && rawPos < rawLen && step == DecodeStep(e, RawView()) && step.Char?
      requires 2 * bufLen + 3 * step.width <= 2 * BUFFER_SIZE
      modifies this`rawPos, this`bufLen, this`unread, this`chars, this`pending, buffer
      ensures Decoding(e) && RawView() == old(RawView())[step.width..]
      ensures 2 * bufLen <= 2 * old(bufLen) + 3 * step.width
      ensures old(pending) <= pending && seen == old(seen)
    {
      AdvanceRaw(e, step);
      AppendChar(step.value);
    }

    lemma {:induction false} RawIsBytes()
      requires Accounted()
      ensures Bytes(RawView())
    {
      var n := if encoding.None? then 0 else Detect(total).1 + |EncodeAll(encoding.value, chars)|;
      forall i | 0 <= i < |RawView()| ensures 0 <= RawView()[i] < 256 {
        match encoding
        case None => assert RawView()[i] == total[i];
        case Some(e) =>
          var after := total[Detect(total).1..];
          assert RawView()[i] == after[|EncodeAll(e, chars)| + i];
      }
    }

    /** Decode the raw buffer until it is empty or ends inside a character. */
    method DecodeRaw(e: Encoding) returns (status: Status)
      requires Decoding(e) && 2 * bufLen + 3 * |RawView()| <= 2 * BUFFER_SIZE
      modifies this`rawPos, this`bufLen, this`unread, this`chars, this`pending, buffer
      ensures status == Fine ==> Decoding(e) && |RawView()| < 4 && (eof ==> RawView() == [])
      ensures status == Fine ==> old(pending) <= pending && seen == old(seen)
      ensures status == Fine ==> bufLen <= old(bufLen) + 768
      ensures status == Undecodable ==> !Decodable(Detect(total).0, total[Detect(total).1..])
      ensures status != ReadError
    {
      while rawPos != rawLen
        invariant Decoding(e)
        invariant 2 * bufLen + 3 * |RawView()| <= 2 * old(bufLen) + 3 * |old(RawView())|
        invariant old(pending) <= pending && seen == old(seen)
        decreases rawLen - rawPos
      {
        var step := ReadChar(e);
        if step.Bad? || (step.More? && eof) {
          BadIsUndecodable(e, chars, RawView(), input);
          return Undecodable;
        }
        if step.More? { return Fine; }
        MoveChar(e, step);
      }
      return Fine;
    }

    /** Take the byte order mark off; enough bytes are there to see it whole. */
    method SkipMark() returns (status: Status)
      requires Accounted() && encoding == None && (rawLen - rawPos >= 3 || eof)
      modifies this`rawPos, this`encoding
      ensures Accounted() && encoding.Some? && status == Fine
    {
      ghost var avail := RawView();
      DetectEarly(avail, input);
      var (e, n) := Detect(raw[rawPos..rawLen]);
      rawPos := rawPos + n;
      encoding := Some(e);
      assert RawView() == avail[n..];
      AfterMark(avail, input, n, e);
      return Fine;
    }

    method DetermineEncoding() returns (status: Status)
      requires Accounted() && Holds() && Textual() && encoding == None && !ended
      modifies this`rawLen, this`rawPos, this`input, this`eof, this`encoding, raw
      ensures status == Fine ==> encoding.Some? && Decoding(encoding.value)
      ensures status != Undecodable
    {
      while !eof && rawLen - rawPos < 3
        invariant Accounted() && Holds() && Textual() && encoding == None
        decreases |input| + if eof then 0 else 1
      {
        status := UpdateRawBuffer();
        if status != Fine { return; }
      }
      status := SkipMark();
    }

    /** Move the characters not yet taken to the front of the working buffer. */
    method ShiftBuffer()
      requires BufShape()
      modifies this`bufLen, this`bufPos, buffer
      ensures BufShape() && bufPos == 0 && BufView() == old(BufView())
    {
      ghost var live := BufView();
      var n := bufLen - bufPos;
      for i := 0 to n
        modifies buffer
        invariant forall k :: 0 <= k < i ==> buffer[k] == live[k]
        invariant forall k :: i <= k < n ==> buffer[bufPos + k] == live[k]
      {
        buffer[i] := buffer[bufPos + i];
      }
      bufLen, bufPos := n, 0;
      assert buffer[0..n] == live;
    }

    method AppendNul()
      requires Accounted() && Holds() && bufLen < BUFFER_SIZE
      modifies this`bufLen, this`unread, this`pending, buffer
      ensures Accounted() && Holds() && RawView() == old(RawView())
      ensures old(pending) <= pending && seen + pending == old(seen + pending) + [0]
    {
      assert |Encode(0)| == 1;
      AppendChar(0);
    }

    /** The final NUL. */
    method PutEnd(e: Encoding)
      requires Decoding(e) && eof && RawView() == [] && bufLen < BUFFER_SIZE
      modifies this`bufLen, this`unread, this`pending, this`ended, buffer
      ensures Valid() && ended && old(pending) <= pending
    {
      assert seen + pending == chars;
      AppendNul();
      ended := true;
    }

    method MoreRaw(e: Encoding, first: bool) returns (status: Status)
      requires Decoding(e) && (!first ==> |RawView()| < 4 && !eof)
      modifies this`rawLen, this`rawPos, this`input, this`eof, raw
      ensures Decoding(e) && status != Undecodable && |input| <= |old(input)|
      ensures status == Fine && !first ==> |input| < |old(input)| || eof
    {
      if !first || rawPos == rawLen {
        status := UpdateRawBuffer();
      } else {
        status := Fine;
      }
    }

    /** One turn of the refill loop: bytes in, characters out, and the NUL after the last of them. */
    method Refill(e: Encoding, first: bool, length: nat) returns (status: Status)
      requires Decoding(e) && bufPos == 0 && unread < length <= 192 && (!first ==> |RawView()| < 4 && !eof)
      modifies this`rawLen, this`rawPos, this`input, this`eof, raw
      modifies this`bufLen, this`unread, this`chars, this`pending, this`ended, buffer
      ensures status == Fine ==> old(pending) <= pending && bufPos == 0 && encoding == Some(e)
      ensures status == Fine && eof ==> Valid() && ended
      ensures status == Fine && !eof ==> Decoding(e) && |RawView()| < 4
      ensures status == Fine && !eof && !first ==> |input| < |old(input)|
      ensures status == Fine ==> |input| <= |old(input)|
      ensures status == Undecodable ==> !Decodable(Detect(total).0, total[Detect(total).1..])
    {
      status := MoreRaw(e, first);
      if status != Fine { return; }
      assert bufLen <= 4 * 191 by {
        Utf8Size(pending);
        assert |BufView()| == bufLen;
      }
      status := DecodeRaw(e);
      if status != Fine { return; }
      if eof {
        PutEnd(e);
      }
    }

    /**
     Ensure that `length` characters are ready.  On success that many are, or the text has
     ended; what was unread is still there, in front; failure is a read error or bytes that
     no text encodes to.
     */
    method UpdateBuffer(length: nat) returns (status: Status)
      requires Valid() && 1 <= length <= 192
      modifies this`rawLen, this`rawPos, this`input, this`eof, this`encoding, raw
      modifies this`bufLen, this`bufPos, this`unread, this`chars, this`pending, this`ended, buffer
      ensures status == Fine ==> Valid() && old(pending) <= pending && (unread >= length || ended)
      ensures status == Undecodable ==> !Decodable(Detect(total).0, total[Detect(total).1..])
    {
      if eof && rawPos == rawLen { return Fine; }
      if unread >= length { return Fine; }
      if encoding == None {
        status := DetermineEncoding();
        if status != Fine { return; }
      }
      var e := encoding.value;
      ShiftBuffer();
      var first := true;
      while unread < length
        invariant Decoding(e) && bufPos == 0 && (!first ==> |RawView()| < 4 && !eof)
        invariant old(pending) <= pending && (first ==> unread < length)
        decreases |input|, first
      {
        status := Refill(e, first, length);
        if status != Fine { return; }
        if eof { return Fine; }
        first := false;
      }
      return Fine;
    }

    method SkipBytes()
      requires Holds() && unread > 0 && Scalar(pending[0])
      modifies this`unread, this`bufPos, this`pending
      ensures Holds() && pending == old(pending)[1..]
    {
      ghost var all := BufView();
      HeadOfText(pending, all);
      assert all[0] == buffer[bufPos];
      unread := unread - 1;
      bufPos := bufPos + Width(buffer[bufPos]);
      assert BufView() == all[Width(all[0])..];
      pending := pending[1..];
    }

    /** The scanner takes one character: the bytes it moves over are exactly that character's. */
    method Skip()
      requires Valid() && unread > 0
      modifies this`unread, this`bufPos, this`seen, this`pending
      ensures Valid() && seen == old(seen) + [old(pending)[0]] && pending == old(pending)[1..]
    {
      HeadScalar(seen, pending, chars, if ended then [0] else []);
      HeadMoves(seen, pending);
      ghost var c := pending[0];
      SkipBytes();
      seen := seen + [c];
    }

    /**
     At the end of the text: the characters taken and pending are those the source encodes,
     then one NUL; from a UTF-8 source, the bytes that passed through the working buffer are
     the source's own after its mark.
     */
    lemma {:induction false} Transcoded()
      requires Valid() && ended
      ensures seen + pending == chars + [0] && AllAllowed(chars)
      ensures Detect(total).1 <= |total| && total[Detect(total).1..] == EncodeAll(Detect(total).0, chars)
      ensures Detect(total).0.Utf8Encoding? ==>
                EncodeAll(Utf8Encoding, seen + pending) == total[Detect(total).1..] + [0]
    {
      var e := Detect(total).0;
      var done := EncodeAll(e, chars);
      assert RawView() + input == [];
      assert done + [] == done;
      EncodeAllSnoc(Utf8Encoding, chars, 0);
    }
  }

  /** How the bytes were chunked and when characters were taken makes no difference: the source has one reading. */
  lemma {:induction false} OneReading(total: seq<int>, a: seq<int>, b: seq<int>)
    requires AllAllowed(a) && AllAllowed(b) && Detect(total).1 <= |total|
    requires total[Detect(total).1..] == EncodeAll(Detect(total).0, a) == EncodeAll(Detect(total).0, b)
    ensures a == b
  {
    var e := Detect(total).0;
    assert EncodeAll(e, a) + [] == EncodeAll(e, b);
    DecodingUnique(e, a, [], b);
    EncodeAllEmpty(e, b[|a|..]);
    assert b == a + b[|a|..];
  }
}
