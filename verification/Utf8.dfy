/**
 The character encodings the reader understands: UTF-8 (section 3 of RFC 3629) and UTF-16 in
 either byte order (section 2.2 of RFC 2781).  Bytes are integers below 256.
 */
module Utf8 {
  datatype Encoding = Utf8Encoding | Utf16LE | Utf16BE

  predicate Bytes(s: seq<int>) { forall i :: 0 <= i < |s| ==> 0 <= s[i] < 256 }

  /** A Unicode scalar value: any code point but a surrogate. */
  predicate Scalar(c: int) { 0 <= c <= 0x10FFFF && !(0xD800 <= c <= 0xDFFF) }

  /** The characters a YAML stream may contain. */
  predicate Allowed(c: int) {
    c == 0x09 || c == 0x0A || c == 0x0D || 0x20 <= c <= 0x7E || c == 0x85 || 0xA0 <= c <= 0xD7FF
    || 0xE000 <= c <= 0xFFFD || 0x10000 <= c <= 0x10FFFF
  }

  function Encode(c: int): (r: seq<int>)
    ensures 1 <= |r| <= 4
  {
    if c <= 0x7F then [c]
    else if c <= 0x7FF then [0xC0 + c / 64, 0x80 + c % 64]
    else if c <= 0xFFFF then [0xE0 + c / 4096, 0x80 + c / 64 % 64, 0x80 + c % 64]
    else [0xF0 + c / 262144, 0x80 + c / 4096 % 64, 0x80 + c / 64 % 64, 0x80 + c % 64]
  }

  /** The width a leading byte announces, 0 if it cannot lead. */
  function Width(b: int): nat {
    if b < 0x80 then 1
    else if 0xC0 <= b < 0xE0 then 2
    else if 0xE0 <= b < 0xF0 then 3
    else if 0xF0 <= b < 0xF8 then 4
    else 0
  }

  /** `More`: the bytes so far may be the beginning of a character. */
  datatype Step = Char(value: int, width: nat) | More | Bad

  predicate Trailing(b: int) { 0x80 <= b < 0xC0 }

  /**
   The value announced by a sequence of width `w`, before its length and range are checked; -1 on
   a bad trailing byte.
   */
  function RawValue(raw: seq<int>, w: nat): int
    requires 1 <= w <= 4 && w <= |raw|
  {
    if w == 1 then raw[0]
    else if w == 2 then if Trailing(raw[1]) then (raw[0] - 0xC0) * 64 + (raw[1] - 0x80) else -1
    else if w == 3 then
      if Trailing(raw[1]) && Trailing(raw[2])
      then ((raw[0] - 0xE0) * 64 + (raw[1] - 0x80)) * 64 + (raw[2] - 0x80)
      else -1
    else
      if Trailing(raw[1]) && Trailing(raw[2]) && Trailing(raw[3]) then
        (((raw[0] - 0xF0) * 64 + (raw[1] - 0x80)) * 64 + (raw[2] - 0x80)) * 64 + (raw[3] - 0x80)
      else -1
  }

  predicate ProperLength(c: int, w: nat) {
    w == 1 || (w == 2 && c >= 0x80) || (w == 3 && c >= 0x800) || (w == 4 && c >= 0x10000)
  }

  function DecodeUtf8(raw: seq<int>): (r: Step)
    requires raw != []
    ensures r.Char? ==> 1 <= r.width <= |raw|
  {
    var w := Width(raw[0]);
    if w == 0 then Bad
    else if w > |raw| then More
    else
      var c := RawValue(raw, w);
      if c < 0 || !ProperLength(c, w) || !Scalar(c) then Bad else Char(c, w)
  }

  lemma {:induction false} DecodeUtf8Exact(raw: seq<int>)
    requires raw != [] && Bytes(raw) && DecodeUtf8(raw).Char?
    ensures var d := DecodeUtf8(raw); Scalar(d.value) && raw[..d.width] == Encode(d.value)
  {
    var d := DecodeUtf8(raw);
    if d.width == 2 {
      var c := (raw[0] - 0xC0) * 64 + (raw[1] - 0x80);
      assert c / 64 == raw[0] - 0xC0 && c % 64 == raw[1] - 0x80;
    } else if d.width == 3 {
      Exact3(raw);
    } else if d.width == 4 {
      Exact4(raw);
    }
  }

  lemma {:induction false} Exact3(raw: seq<int>)
    requires |raw| >= 3 && 0xE0 <= raw[0] && Trailing(raw[1]) && Trailing(raw[2]) && 0x800 <= RawValue(raw, 3) <= 0xFFFF
    ensures raw[..3] == Encode(RawValue(raw, 3))
  {
    Split3(raw[0] - 0xE0, raw[1] - 0x80, raw[2] - 0x80);
  }

  lemma {:induction false} Exact4(raw: seq<int>)
    requires |raw| >= 4 && 0xF0 <= raw[0] && Trailing(raw[1]) && Trailing(raw[2]) && Trailing(raw[3])
    requires 0x10000 <= RawValue(raw, 4)
    ensures raw[..4] == Encode(RawValue(raw, 4))
  {
    Split4(raw[0] - 0xF0, raw[1] - 0x80, raw[2] - 0x80, raw[3] - 0x80);
  }

  lemma {:induction false} Split3(a: int, b: int, c: int)
    requires 0 <= a && 0 <= b < 64 && 0 <= c < 64
    ensures var v := (a * 64 + b) * 64 + c; v / 4096 == a && v / 64 % 64 == b && v % 64 == c
  {
    var v := (a * 64 + b) * 64 + c;
    assert v / 64 == a * 64 + b;
  }

  lemma {:induction false} Split4(a: int, b: int, c: int, d: int)
    requires 0 <= a && 0 <= b < 64 && 0 <= c < 64 && 0 <= d < 64
    ensures var v := ((a * 64 + b) * 64 + c) * 64 + d;
            v / 262144 == a && v / 4096 % 64 == b && v / 64 % 64 == c && v % 64 == d
  {
    var v := ((a * 64 + b) * 64 + c) * 64 + d;
    assert v / 64 == (a * 64 + b) * 64 + c;
    Split3(a, b, c);
    assert v / 4096 == a * 64 + b;
  }

  lemma {:induction false} Join3(c: int)
    requires 0 <= c
    ensures (c / 4096 * 64 + c / 64 % 64) * 64 + c % 64 == c
  {
    assert c / 64 == c / 4096 * 64 + c / 64 % 64;
  }

  lemma {:induction false} Join4(c: int)
    requires 0 <= c
    ensures ((c / 262144 * 64 + c / 4096 % 64) * 64 + c / 64 % 64) * 64 + c % 64 == c
  {
    assert c / 4096 == c / 262144 * 64 + c / 4096 % 64;
    Join3(c);
  }

  /** Width of the encoding is what its first byte announces. */
  lemma {:induction false} EncodeWidth(c: int)
    requires Scalar(c)
    ensures Width(Encode(c)[0]) == |Encode(c)| && Bytes(Encode(c))
  {
    if 0xFFFF < c {
      assert c / 262144 <= 4;
    }
  }

  lemma {:induction false} RawValueOfEncode(c: int, rest: seq<int>)
    requires Scalar(c)
    ensures RawValue(Encode(c) + rest, |Encode(c)|) == c
  {
    if 0x7F < c <= 0x7FF {
      assert c / 64 * 64 + c % 64 == c;
    } else if 0x7FF < c <= 0xFFFF {
      Join3(c);
    } else if 0xFFFF < c {
      Join4(c);
    }
  }

  lemma {:induction false} DecodeUtf8Inverts(c: int, rest: seq<int>)
    requires Scalar(c)
    ensures DecodeUtf8(Encode(c) + rest) == Char(c, |Encode(c)|)
  {
    EncodeWidth(c);
    RawValueOfEncode(c, rest);
  }

  // ---------- octet by octet ----------

  function Leading(b: int, w: nat): int {
    if w == 1 then b else if w == 2 then b - 0xC0 else if w == 3 then b - 0xE0 else b - 0xF0
  }

  /** The value of the first `k` octets of a sequence of width `w`. */
  function PartialValue(raw: seq<int>, w: nat, k: nat): int
    requires 1 <= k <= |raw|
  {
    if k == 1 then Leading(raw[0], w) else PartialValue(raw, w, k - 1) * 64 + (raw[k - 1] - 0x80)
  }

  lemma {:induction false} PartialIsRaw(raw: seq<int>, w: nat)
    requires 1 <= w <= 4 && w <= |raw| && Width(raw[0]) == w && forall j :: 1 <= j < w ==> Trailing(raw[j])
    ensures PartialValue(raw, w, w) == RawValue(raw, w)
  {
    assert PartialValue(raw, w, 1) == Leading(raw[0], w);
    if w >= 2 { assert PartialValue(raw, w, 2) == Leading(raw[0], w) * 64 + (raw[1] - 0x80); }
    if w >= 3 { assert PartialValue(raw, w, 3) == PartialValue(raw, w, 2) * 64 + (raw[2] - 0x80); }
  }

  // ---------- UTF-16 ----------

  function Unit(enc: Encoding, u: int): (r: seq<int>)
    ensures |r| == 2
  {
    if enc.Utf16LE? then [u % 256, u / 256] else [u / 256, u % 256]
  }

  function UnitAt(enc: Encoding, raw: seq<int>, i: nat): int
    requires i + 1 < |raw|
  {
    if enc.Utf16LE? then raw[i] + raw[i + 1] * 256 else raw[i + 1] + raw[i] * 256
  }

  function Encode16(enc: Encoding, c: int): (r: seq<int>)
    ensures 1 <= |r| <= 4
  {
    if c <= 0xFFFF then Unit(enc, c)
    else Unit(enc, 0xD800 + (c - 0x10000) / 1024) + Unit(enc, 0xDC00 + (c - 0x10000) % 1024)
  }

  function Decode16(enc: Encoding, raw: seq<int>): (r: Step)
    requires raw != []
    ensures r.Char? ==> 1 <= r.width <= |raw|
  {
    if |raw| < 2 then More
    else
      var u := UnitAt(enc, raw, 0);
      if 0xDC00 <= u <= 0xDFFF then Bad
      else if 0xD800 <= u <= 0xDBFF then
        if |raw| < 4 then More
        else
          var u2 := UnitAt(enc, raw, 2);
          if !(0xDC00 <= u2 <= 0xDFFF) then Bad
          else Char(0x10000 + (u - 0xD800) * 1024 + (u2 - 0xDC00), 4)
      else Char(u, 2)
  }

  lemma {:induction false} UnitExact(enc: Encoding, raw: seq<int>, i: nat)
    requires i + 1 < |raw| && Bytes(raw)
    ensures raw[i..i + 2] == Unit(enc, UnitAt(enc, raw, i)) && 0 <= UnitAt(enc, raw, i) < 0x10000
  {
  }

  lemma {:induction false} Decode16Exact(enc: Encoding, raw: seq<int>)
    requires raw != [] && Bytes(raw) && Decode16(enc, raw).Char?
    ensures var d := Decode16(enc, raw); Scalar(d.value) && raw[..d.width] == Encode16(enc, d.value)
  {
    UnitExact(enc, raw, 0);
    var d := Decode16(enc, raw);
    if d.width == 4 {
      UnitExact(enc, raw, 2);
      var u, u2 := UnitAt(enc, raw, 0), UnitAt(enc, raw, 2);
      assert (d.value - 0x10000) / 1024 == u - 0xD800 && (d.value - 0x10000) % 1024 == u2 - 0xDC00;
      assert raw[..4] == raw[0..2] + raw[2..4];
    } else {
      assert raw[..2] == raw[0..2];
    }
  }

  lemma {:induction false} UnitInverts(enc: Encoding, u: int, rest: seq<int>)
    requires 0 <= u < 0x10000
    ensures UnitAt(enc, Unit(enc, u) + rest, 0) == u && Bytes(Unit(enc, u))
  {
  }

  lemma {:induction false} Decode16Inverts(enc: Encoding, c: int, rest: seq<int>)
    requires Scalar(c)
    ensures Decode16(enc, Encode16(enc, c) + rest) == Char(c, |Encode16(enc, c)|) && Bytes(Encode16(enc, c))
  {
    if c <= 0xFFFF {
      UnitInverts(enc, c, rest);
    } else {
      var h, l := 0xD800 + (c - 0x10000) / 1024, 0xDC00 + (c - 0x10000) % 1024;
      assert h <= 0xDBFF;
      UnitInverts(enc, h, Unit(enc, l) + rest);
      UnitInverts(enc, l, rest);
      var raw := Encode16(enc, c) + rest;
      assert raw == Unit(enc, h) + (Unit(enc, l) + rest);
      assert UnitAt(enc, raw, 2) == UnitAt(enc, Unit(enc, l) + rest, 0);
    }
  }

  // ---------- either encoding ----------

  function EncodeAs(enc: Encoding, c: int): (r: seq<int>)
    ensures 1 <= |r| <= 4
  {
    if enc.Utf8Encoding? then Encode(c) else Encode16(enc, c)
  }

  function EncodeAll(enc: Encoding, cs: seq<int>): seq<int> {
    if cs == [] then [] else EncodeAll(enc, cs[..|cs| - 1]) + EncodeAs(enc, cs[|cs| - 1])
  }

  predicate AllAllowed(cs: seq<int>) { forall i :: 0 <= i < |cs| ==> Allowed(cs[i]) }

  /** One character as the reader takes it: decoded, then checked against the allowed set. */
  function DecodeStep(enc: Encoding, raw: seq<int>): (r: Step)
    requires raw != []
    ensures r.Char? ==> 1 <= r.width <= |raw|
  {
    var d := if enc.Utf8Encoding? then DecodeUtf8(raw) else Decode16(enc, raw);
    if d.Char? && !Allowed(d.value) then Bad else d
  }

  lemma {:induction false} StepExact(enc: Encoding, raw: seq<int>)
    requires raw != [] && Bytes(raw) && DecodeStep(enc, raw).Char?
    ensures var d := DecodeStep(enc, raw);
            Allowed(d.value) && Scalar(d.value) && raw[..d.width] == EncodeAs(enc, d.value)
  {
    if enc.Utf8Encoding? {
      DecodeUtf8Exact(raw);
    } else {
      Decode16Exact(enc, raw);
    }
  }

  lemma {:induction false} StepInverts(enc: Encoding, c: int, rest: seq<int>)
    requires Allowed(c)
    ensures DecodeStep(enc, EncodeAs(enc, c) + rest) == Char(c, |EncodeAs(enc, c)|)
  {
    if enc.Utf8Encoding? {
      DecodeUtf8Inverts(c, rest);
    } else {
      Decode16Inverts(enc, c, rest);
    }
  }

  /** A character cut short is never mistaken for an error or for another character. */
  lemma {:induction false} StepWaits(enc: Encoding, c: int, k: nat)
    requires Allowed(c) && 0 < k < |EncodeAs(enc, c)|
    ensures DecodeStep(enc, EncodeAs(enc, c)[..k]) == More
  {
    if enc.Utf8Encoding? {
      EncodeWidth(c);
    } else {
      Decode16Inverts(enc, c, []);
      assert Encode16(enc, c) + [] == Encode16(enc, c);
    }
  }

  lemma {:induction false} EncodeAllSnoc(enc: Encoding, cs: seq<int>, c: int)
    ensures EncodeAll(enc, cs + [c]) == EncodeAll(enc, cs) + EncodeAs(enc, c)
  {
    assert (cs + [c])[..|cs|] == cs;
  }

  lemma {:induction false} EncodeAllAppend(enc: Encoding, a: seq<int>, b: seq<int>)
    ensures EncodeAll(enc, a + b) == EncodeAll(enc, a) + EncodeAll(enc, b)
    decreases |b|
  {
    if b == [] {
      assert a + b == a;
    } else {
      var init, last := b[..|b| - 1], b[|b| - 1];
      SnocOf(enc, a + init, last, a + b);
      SnocOf(enc, init, last, b);
      EncodeAllAppend(enc, a, init);
      Associate(EncodeAll(enc, a), EncodeAll(enc, init), EncodeAs(enc, last));
    }
  }

  lemma {:induction false} SnocOf(enc: Encoding, init: seq<int>, last: int, all: seq<int>)
    requires all == init + [last]
    ensures EncodeAll(enc, all) == EncodeAll(enc, init) + EncodeAs(enc, last)
  {
    EncodeAllSnoc(enc, init, last);
  }

  lemma Associate<T>(a: seq<T>, b: seq<T>, c: seq<T>)
    ensures (a + b) + c == a + (b + c)
  {
  }

  lemma {:induction false} EncodeAllCons(enc: Encoding, cs: seq<int>)
    requires cs != []
    ensures EncodeAll(enc, cs) == EncodeAs(enc, cs[0]) + EncodeAll(enc, cs[1..])
  {
    assert cs == [cs[0]] + cs[1..];
    EncodeAllAppend(enc, [cs[0]], cs[1..]);
    assert [cs[0]][..0] == [];
    assert EncodeAll(enc, [cs[0]]) == [] + EncodeAs(enc, cs[0]);
  }

  lemma {:induction false} FirstUnique(enc: Encoding, x: int, ra: seq<int>, y: int, rb: seq<int>)
    requires Allowed(x) && Allowed(y) && EncodeAs(enc, x) + ra == EncodeAs(enc, y) + rb
    ensures x == y && ra == rb
  {
    StepInverts(enc, x, ra);
    StepInverts(enc, y, rb);
    var p := EncodeAs(enc, x);
    assert ra == (p + ra)[|p|..] && rb == (p + rb)[|p|..];
  }

  lemma {:induction false} ConsPrefix(a: seq<int>, b: seq<int>)
    requires a != [] && b != [] && a[0] == b[0] && a[1..] <= b[1..]
    ensures a <= b && b[1..][|a[1..]|..] == b[|a|..]
  {
    assert a == [a[0]] + a[1..] && b == [b[0]] + b[1..];
  }

  lemma {:induction false} EncodeAllEmpty(enc: Encoding, cs: seq<int>)
    ensures EncodeAll(enc, cs) == [] <==> cs == []
  {
    if cs != [] {
      EncodeAllCons(enc, cs);
    }
  }

  lemma {:induction false} Peel(enc: Encoding, x: int, ea: seq<int>, rest: seq<int>, eb: seq<int>, b: seq<int>)
    requires Allowed(x) && AllAllowed(b) && eb == EncodeAll(enc, b) && (EncodeAs(enc, x) + ea) + rest == eb
    ensures b != [] && x == b[0] && ea + rest == EncodeAll(enc, b[1..])
  {
    Associate(EncodeAs(enc, x), ea, rest);
    EncodeAllEmpty(enc, b);
    EncodeAllCons(enc, b);
    FirstUnique(enc, x, ea + rest, b[0], EncodeAll(enc, b[1..]));
  }

  /** An encoded text is read back one way only: a decoded prefix of it is a prefix of its characters. */
  lemma {:induction false} DecodingUnique(enc: Encoding, a: seq<int>, rest: seq<int>, b: seq<int>)
    requires AllAllowed(a) && AllAllowed(b) && EncodeAll(enc, a) + rest == EncodeAll(enc, b)
    ensures a <= b && rest == EncodeAll(enc, b[|a|..])
    decreases |a|
  {
    if a == [] {
      assert EncodeAll(enc, a) + rest == rest;
      assert b[0..] == b;
    } else {
      EncodeAllCons(enc, a);
      Peel(enc, a[0], EncodeAll(enc, a[1..]), rest, EncodeAll(enc, b), b);
      DecodingUnique(enc, a[1..], rest, b[1..]);
      ConsPrefix(a, b);
    }
  }
}
