/**
 The index arithmetic of the HDR histogram: which slot of the count array a value falls
 into, and which values share it.
 */
module HdrIndex {
  import opened Wrappers

  // ---------- powers of two and bit lengths ----------

  function Pow2(n: nat): (p: nat)
    ensures p > 0
  {
    if n == 0 then 1 else 2 * Pow2(n - 1)
  }

  function Pow10(n: nat): (p: nat)
    ensures p > 0
  {
    if n == 0 then 1 else 10 * Pow10(n - 1)
  }

  function BitLen(x: nat): nat { if x == 0 then 0 else 1 + BitLen(x / 2) }

  /** Bitwise or. */
  function Or(x: nat, y: nat): nat
    decreases x + y
  {
    if x == 0 && y == 0 then 0
    else 2 * Or(x / 2, y / 2) + if x % 2 == 1 || y % 2 == 1 then 1 else 0
  }

  function Max(a: int, b: int): int { if a >= b then a else b }

  lemma {:induction false} Pow2Add(a: nat, b: nat)
    ensures Pow2(a + b) == Pow2(a) * Pow2(b)
    decreases a
  {
    if a > 0 {
      Pow2Add(a - 1, b);
      DoubleProduct(Pow2(a - 1), Pow2(b));
      assert Pow2(a) == 2 * Pow2(a - 1) && Pow2(a + b) == 2 * Pow2(a - 1 + b);
    }
  }

  lemma DoubleProduct(x: int, y: int)
    ensures (2 * x) * y == 2 * (x * y)
  {
  }

  lemma {:induction false} Pow2Monotone(a: nat, b: nat)
    requires a <= b
    ensures Pow2(a) <= Pow2(b)
    decreases b - a
  {
    if a < b {
      Pow2Monotone(a, b - 1);
    }
  }

  lemma {:induction false} BitLenBounds(x: nat)
    ensures x < Pow2(BitLen(x))
    ensures x > 0 ==> BitLen(x) > 0 && Pow2(BitLen(x) - 1) <= x
  {
    if x > 0 {
      BitLenBounds(x / 2);
    }
  }

  /** The bit length is the only n with x < 2^n and, for n > 0, 2^(n-1) <= x. */
  lemma {:induction false} BitLenUnique(x: nat, n: nat)
    requires x < Pow2(n) && (n > 0 ==> Pow2(n - 1) <= x)
    ensures BitLen(x) == n
  {
    BitLenBounds(x);
    if BitLen(x) < n {
      Pow2Monotone(BitLen(x), n - 1);
    } else if BitLen(x) > n {
      Pow2Monotone(n, BitLen(x) - 1);
    }
  }

  lemma {:induction false} BitLenMonotone(x: nat, y: nat)
    requires x <= y
    ensures BitLen(x) <= BitLen(y)
  {
    if x > 0 {
      BitLenMonotone(x / 2, y / 2);
    }
  }

  lemma {:induction false} OrBitLen(x: nat, y: nat)
    ensures BitLen(Or(x, y)) == Max(BitLen(x), BitLen(y))
    decreases x + y
  {
    if x > 0 || y > 0 {
      OrBitLen(x / 2, y / 2);
      var bit := if x % 2 == 1 || y % 2 == 1 then 1 else 0;
      assert (2 * Or(x / 2, y / 2) + bit) / 2 == Or(x / 2, y / 2);
      OrZero(x / 2, y / 2);
    }
  }

  lemma {:induction false} OrZero(x: nat, y: nat)
    ensures Or(x, y) == 0 <==> x == 0 && y == 0
    decreases x + y
  {
    if x > 0 || y > 0 {
      OrZero(x / 2, y / 2);
    }
  }

  /** The source's bit-length loop and binary search. */
  method ComputeBitLen(v: nat) returns (n: nat)
    ensures n == BitLen(v)
  {
    var x: nat := v;
    n := 0;
    while x >= 0x8000
      invariant BitLen(v) == n + BitLen(x)
    {
      ShiftBits(x, 16);
      x := x / 0x10000;
      n := n + 16;
    }
    if x >= 0x80 {
      ShiftBits(x, 8);
      x := x / 0x100;
      n := n + 8;
    }
    if x >= 0x8 {
      ShiftBits(x, 4);
      x := x / 0x10;
      n := n + 4;
    }
    if x >= 0x2 {
      ShiftBits(x, 2);
      x := x / 0x4;
      n := n + 2;
    }
    assert x < 2;
    if x >= 0x1 {
      assert BitLen(1) == 1 + BitLen(0);
      n := n + 1;
    }
  }

  /** The four shifts of the source, by constants. */
  lemma {:induction false} ShiftBits(x: nat, k: nat)
    requires k == 16 || k == 8 || k == 4 || k == 2
    requires k == 16 ==> x >= 0x8000
    requires k == 8 ==> x >= 0x80
    requires k == 4 ==> x >= 0x8
    requires k == 2 ==> x >= 0x2
    ensures var unit := if k == 16 then 0x10000 else if k == 8 then 0x100 else if k == 4 then 0x10 else 4;
            BitLen(x) == k + BitLen(x / unit)
  {
    assert Pow2(2) == 4 && Pow2(1) == 2;
    assert Pow2(4) == 0x10 && Pow2(3) == 0x8;
    assert Pow2(6) == 0x40;
    assert Pow2(8) == 0x100 && Pow2(7) == 0x80;
    assert Pow2(10) == 0x400;
    assert Pow2(12) == 0x1000;
    assert Pow2(14) == 0x4000;
    assert Pow2(16) == 0x10000 && Pow2(15) == 0x8000;
    BitLenShift(x, k);
  }

  /** Shifting right by `k` takes `k` off the length of a number that has them. */
  lemma {:induction false} BitLenShift(x: nat, k: nat)
    requires k > 0 && x >= Pow2(k - 1)
    ensures BitLen(x) == k + BitLen(x / Pow2(k))
    decreases k
  {
    if k > 1 {
      BitLenShift(x / 2, k - 1);
      DivDiv(x, Pow2(k - 1));
    }
  }

  lemma {:induction false} DivDiv(x: nat, d: nat)
    requires d > 0
    ensures x / (2 * d) == (x / 2) / d
  {
    var q := (x / 2) / d;
    assert x / 2 == d * q + (x / 2) % d;
    assert q * (2 * d) == 2 * (d * q);
    QuotientIs(x, 2 * d, q);
  }

  lemma {:induction false} LessByScale(a: int, b: int, w: int)
    requires w > 0 && a * w < b * w
    ensures a < b
  {
  }

  lemma {:induction false} ScaleMonotone(a: int, b: int, w: int)
    requires w >= 0 && a <= b
    ensures a * w <= b * w
  {
  }

  lemma {:induction false} DivBounds(x: int, d: int)
    requires d > 0
    ensures (x / d) * d <= x < (x / d) * d + d
  {
    assert x == d * (x / d) + x % d;
  }

  lemma {:induction false} QuotientIs(x: int, d: int, q: int)
    requires d > 0 && q * d <= x < q * d + d
    ensures x / d == q
  {
    var r := x / d;
    DivBounds(x, d);
    assert (q + 1) * d == q * d + d && (r + 1) * d == r * d + d;
    LessByScale(q, r + 1, d);
    LessByScale(r, q + 1, d);
  }

  lemma {:induction false} QuotientBelow(x: int, d: int, c: int)
    requires d > 0 && x < c * d
    ensures x / d < c
  {
    DivBounds(x, d);
    LessByScale(x / d, c, d);
  }

  lemma {:induction false} QuotientAtLeast(x: int, d: int, c: int)
    requires d > 0 && c * d <= x
    ensures x / d >= c
  {
    DivBounds(x, d);
    assert (x / d + 1) * d == (x / d) * d + d;
    LessByScale(c, x / d + 1, d);
  }

  // ---------- the shape of a histogram ----------

  /** `unit`: log2 of the unit; `half`: log2 of half the sub-buckets of a bucket. */
  datatype Shape = Shape(unit: nat, half: nat, buckets: nat)

  function HalfCount(s: Shape): nat { Pow2(s.half) }

  function SubBucketCount(s: Shape): nat { Pow2(s.half + 1) }

  function Times(a: nat, b: nat): nat { a * b }

  function Quotient(a: nat, d: nat): nat
    requires d > 0
  {
    a / d
  }

  function Mask(s: Shape): nat { Times(SubBucketCount(s) - 1, Pow2(s.unit)) }

  function CountsLen(s: Shape): nat { (s.buckets + 1) * HalfCount(s) }

  function BucketIndex(s: Shape, v: nat): int { BitLen(Or(v, Mask(s))) - s.unit - (s.half + 1) }

  function SubBucketIndex(s: Shape, v: nat, bucket: nat): nat { Quotient(v, Pow2(bucket + s.unit)) }

  function CountsIndex(s: Shape, bucket: int, sub: int): int { (bucket + 1) * Pow2(s.half) + (sub - HalfCount(s)) }

  function ValueFromIndex(s: Shape, bucket: nat, sub: nat): nat { sub * Pow2(bucket + s.unit) }

  lemma {:induction false} MaskBounds(h: nat, u: nat)
    requires h >= 1
    ensures h * u <= Times(2 * h - 1, u) < 2 * (h * u) || u == 0
  {
    assert Times(2 * h - 1, u) == 2 * (h * u) - u by {
      assert (2 * h - 1) * u == (2 * h) * u - u;
      assert (2 * h) * u == 2 * (h * u);
    }
    assert (h - 1) * u >= 0;
    assert (h - 1) * u == h * u - u;
  }

  lemma {:induction false} MaskBits(s: Shape)
    ensures BitLen(Mask(s)) == s.unit + s.half + 1
  {
    var u, h := Pow2(s.unit), Pow2(s.half);
    Pow2Add(s.half, s.unit);
    MaskBounds(h, u);
    assert Mask(s) == Times(2 * h - 1, u);
    assert s.half + s.unit == s.unit + s.half;
    BitLenUnique(Mask(s), s.unit + s.half + 1);
  }

  /** Or-ing in the mask makes the bucket index the excess of bits over one full bucket. */
  lemma {:induction false} BucketIndexIs(s: Shape, v: nat)
    ensures BucketIndex(s, v) == Max(0, BitLen(v) - (s.unit + s.half + 1)) >= 0
  {
    OrBitLen(v, Mask(s));
    MaskBits(s);
  }

  /** The slot position of a value: its bucket and its place in that bucket. */
  datatype Place = Place(bucket: nat, sub: nat)

  function PlaceOf(s: Shape, v: nat): Place {
    BucketIndexIs(s, v);
    Place(BucketIndex(s, v), SubBucketIndex(s, v, BucketIndex(s, v)))
  }

  /** How many bits `v` has beyond those of one full bucket. */
  function Excess(s: Shape, v: nat): nat { Max(0, BitLen(v) - (s.unit + s.half + 1)) }

  lemma {:induction false} PlaceIs(s: Shape, v: nat)
    ensures PlaceOf(s, v) == Place(Excess(s, v), Quotient(v, Pow2(Excess(s, v) + s.unit)))
  {
    BucketIndexIs(s, v);
  }

  /** Only the upper half of every bucket but the first is used. */
  predicate Canonical(s: Shape, p: Place) {
    p.sub < SubBucketCount(s) && (p.bucket > 0 ==> p.sub >= HalfCount(s))
  }

  function Slot(s: Shape, v: nat): int { CountsIndex(s, PlaceOf(s, v).bucket, PlaceOf(s, v).sub) }

  function Width(s: Shape, v: nat): nat { Pow2(s.unit + PlaceOf(s, v).bucket) }

  function Lowest(s: Shape, v: nat): nat { ValueFromIndex(s, PlaceOf(s, v).bucket, PlaceOf(s, v).sub) }

  function Highest(s: Shape, v: nat): int { Lowest(s, v) + Width(s, v) - 1 }

  /** The class a place stands for: the multiples of its width from one to the next. */
  predicate InPlace(s: Shape, v: nat, p: Place) {
    var w := Pow2(p.bucket + s.unit);
    p.sub * w <= v < p.sub * w + w
  }

  /** Every value lies in the class of its place, which is canonical. */
  lemma {:induction false} PlaceHolds(s: Shape, v: nat)
    ensures Canonical(s, PlaceOf(s, v)) && InPlace(s, v, PlaceOf(s, v))
  {
    PlaceIs(s, v);
    PlaceBits(s, v, Excess(s, v));
    SubBounds(v, s.half, Excess(s, v) + s.unit, Excess(s, v) > 0);
  }

  lemma {:induction false} SubBounds(v: nat, half: nat, shift: nat, upper: bool)
    requires v < Pow2(half + 1 + shift) && (upper ==> Pow2(half + shift) <= v)
    ensures var w := Pow2(shift);
            (v / w) * w <= v < (v / w) * w + w && v / w < Pow2(half + 1) && (upper ==> v / w >= Pow2(half))
  {
    var w := Pow2(shift);
    DivBounds(v, w);
    Pow2Add(half + 1, shift);
    QuotientBelow(v, w, Pow2(half + 1));
    if upper {
      Pow2Add(half, shift);
      QuotientAtLeast(v, w, Pow2(half));
    }
  }

  lemma {:induction false} PlaceBits(s: Shape, v: nat, b: nat)
    requires b == Max(0, BitLen(v) - (s.unit + s.half + 1))
    ensures v < Pow2(s.half + 1 + (b + s.unit))
    ensures b > 0 ==> Pow2(s.half + (b + s.unit)) <= v
  {
    BitLenBounds(v);
    Pow2Monotone(BitLen(v), s.half + 1 + (b + s.unit));
  }

  /** A canonical place is the place of every value in its class. */
  lemma {:induction false} PlaceOfClass(s: Shape, v: nat, p: Place)
    requires Canonical(s, p) && InPlace(s, v, p)
    ensures PlaceOf(s, v) == p
  {
    assert Excess(s, v) == p.bucket by {
      ClassBits(v, s.half, p.bucket + s.unit, p.sub, p.bucket > 0);
    }
    assert v / Pow2(p.bucket + s.unit) == p.sub by {
      QuotientIs(v, Pow2(p.bucket + s.unit), p.sub);
    }
    PlaceIs(s, v);
  }

  lemma {:induction false} ClassBits(v: nat, half: nat, shift: nat, sub: nat, upper: bool)
    requires var w := Pow2(shift); sub * w <= v < sub * w + w
    requires sub < Pow2(half + 1) && (upper ==> sub >= Pow2(half))
    ensures if upper then BitLen(v) == half + 1 + shift else BitLen(v) <= half + 1 + shift
  {
    var w := Pow2(shift);
    Pow2Add(half + 1, shift);
    assert (sub + 1) * w == sub * w + w;
    ScaleMonotone(sub + 1, Pow2(half + 1), w);
    BitLenAtMost(v, half + 1 + shift);
    if upper {
      Pow2Add(half, shift);
      ScaleMonotone(Pow2(half), sub, w);
      BitLenUnique(v, half + 1 + shift);
    }
  }

  lemma {:induction false} BitLenAtMost(v: nat, n: nat)
    requires v < Pow2(n)
    ensures BitLen(v) <= n
  {
    BitLenBounds(v);
    if BitLen(v) > n {
      Pow2Monotone(n, BitLen(v) - 1);
    }
  }

  // ---------- slots ----------

  lemma {:induction false} SlotIs(s: Shape, p: Place)
    ensures CountsIndex(s, p.bucket, p.sub) == p.bucket * Pow2(s.half) + p.sub
  {
    assert (p.bucket + 1) * Pow2(s.half) == p.bucket * Pow2(s.half) + Pow2(s.half);
  }

  /** The place whose slot is `k`. */
  function PlaceAt(s: Shape, k: nat): Place {
    if k < SubBucketCount(s) then Place(0, k)
    else
      DivBounds(k, HalfCount(s));
      LessByScale(1, k / HalfCount(s) + 1, HalfCount(s));
      var b := k / HalfCount(s) - 1;
      Place(b, k - b * HalfCount(s))
  }

  lemma {:induction false} PlaceAtIsInverse(s: Shape, k: nat)
    ensures Canonical(s, PlaceAt(s, k)) && CountsIndex(s, PlaceAt(s, k).bucket, PlaceAt(s, k).sub) == k
  {
    var h := HalfCount(s);
    var p := PlaceAt(s, k);
    SlotIs(s, p);
    if k >= SubBucketCount(s) {
      DivBounds(k, h);
      assert (k / h) * h == p.bucket * h + h;
      assert (k / h + 1) * h == (k / h) * h + h;
      LessByScale(2, k / h + 1, h);
    }
  }

  /** The slots below `CountsLen` are exactly those of the histogram's buckets. */
  lemma {:induction false} SlotInRange(s: Shape, p: Place)
    requires Canonical(s, p) && s.buckets > 0
    ensures CountsIndex(s, p.bucket, p.sub) < CountsLen(s) <==> p.bucket < s.buckets
  {
    var h := HalfCount(s);
    SlotIs(s, p);
    assert (s.buckets + 1) * h == s.buckets * h + h;
    if p.bucket < s.buckets {
      ScaleMonotone(p.bucket + 1, s.buckets, h);
      assert (p.bucket + 1) * h == p.bucket * h + h;
    } else {
      ScaleMonotone(s.buckets, p.bucket, h);
    }
  }

  lemma {:induction false} SlotDeterminesPlace(s: Shape, p: Place)
    requires Canonical(s, p)
    ensures CountsIndex(s, p.bucket, p.sub) >= 0
    ensures PlaceAt(s, CountsIndex(s, p.bucket, p.sub)) == p
  {
    SlotIs(s, p);
    if p.bucket == 0 {
      assert CountsIndex(s, 0, p.sub) == p.sub;
    } else {
      var h := HalfCount(s);
      ScaleMonotone(1, p.bucket, h);
      OneMoreTimes(p.bucket, h);
      HigherBucketIs(s, p.bucket * h + p.sub, p.bucket, p.bucket * h);
    }
  }

  lemma OneMoreTimes(b: int, h: int)
    ensures (b + 1) * h == b * h + h
  {
  }

  /** A slot in the upper half of bucket `b`, which starts at slot `start + h`. */
  lemma {:induction false} HigherBucketIs(s: Shape, k: nat, b: nat, start: nat)
    requires b > 0 && start == b * HalfCount(s) && HalfCount(s) <= start
    requires (b + 1) * HalfCount(s) == start + HalfCount(s)
    requires start + HalfCount(s) <= k < start + HalfCount(s) + HalfCount(s)
    ensures PlaceAt(s, k) == Place(b, k - start)
  {
    QuotientIs(k, HalfCount(s), b + 1);
  }

  // ---------- main results on the index ----------

  /** Two values share a slot exactly when one lies in the other's class. */
  lemma {:induction false} SlotsAreClasses(s: Shape, v: nat, w: nat)
    ensures Slot(s, v) == Slot(s, w) <==> Lowest(s, v) <= w <= Highest(s, v)
  {
    PlaceHolds(s, v);
    PlaceHolds(s, w);
    var p := PlaceOf(s, v);
    SlotDeterminesPlace(s, p);
    SlotDeterminesPlace(s, PlaceOf(s, w));
    assert s.unit + p.bucket == p.bucket + s.unit;
    if InPlace(s, w, p) {
      PlaceOfClass(s, w, p);
    }
  }

  /** A class starts at its lowest value, which lies in the same slot. */
  lemma {:induction false} ClassContainsValue(s: Shape, v: nat)
    ensures Lowest(s, v) <= v <= Highest(s, v)
    ensures Slot(s, Lowest(s, v)) == Slot(s, v) && Lowest(s, Lowest(s, v)) == Lowest(s, v)
  {
    PlaceHolds(s, v);
    PlaceOfClass(s, Lowest(s, v), PlaceOf(s, v));
  }

  /** The iterator's value for a canonical place is recorded in the slot of that place. */
  lemma {:induction false} ValueFromIndexSlot(s: Shape, p: Place)
    requires Canonical(s, p)
    ensures PlaceOf(s, ValueFromIndex(s, p.bucket, p.sub)) == p
    ensures Slot(s, ValueFromIndex(s, p.bucket, p.sub)) == CountsIndex(s, p.bucket, p.sub)
  {
    PlaceOfClass(s, ValueFromIndex(s, p.bucket, p.sub), p);
  }

  function ValueAt(s: Shape, k: nat): nat { ValueFromIndex(s, PlaceAt(s, k).bucket, PlaceAt(s, k).sub) }

  /** Every slot is the slot of some value: the map onto slots leaves no gap. */
  lemma {:induction false} SlotsAreOnto(s: Shape, k: nat)
    ensures Slot(s, ValueAt(s, k)) == k && Lowest(s, ValueAt(s, k)) == ValueAt(s, k)
  {
    PlaceAtIsInverse(s, k);
    ValueFromIndexSlot(s, PlaceAt(s, k));
  }

  lemma {:induction false} SlotNonNegative(s: Shape, v: nat)
    ensures Slot(s, v) >= 0
  {
    PlaceHolds(s, v);
    SlotDeterminesPlace(s, PlaceOf(s, v));
  }

  lemma {:induction false} DivMonotone(x: int, y: int, d: int)
    requires d > 0 && x <= y
    ensures x / d <= y / d
  {
    DivBounds(x, d);
    QuotientAtLeast(y, d, x / d);
  }

  lemma {:induction false} SlotIsMonotone(s: Shape, v: nat, w: nat)
    requires v <= w
    ensures Slot(s, v) <= Slot(s, w)
  {
    var p, q := PlaceOf(s, v), PlaceOf(s, w);
    PlaceIs(s, v);
    PlaceIs(s, w);
    BitLenMonotone(v, w);
    PlaceHolds(s, v);
    PlaceHolds(s, w);
    SlotIs(s, p);
    SlotIs(s, q);
    if p.bucket == q.bucket {
      DivMonotone(v, w, Pow2(p.bucket + s.unit));
    } else {
      ScaleMonotone(p.bucket + 1, q.bucket, Pow2(s.half));
      assert (p.bucket + 1) * Pow2(s.half) == p.bucket * Pow2(s.half) + Pow2(s.half);
    }
  }

  /** Exactly the values below 2^(unit + half + buckets) have a slot in the count array. */
  lemma {:induction false} RecordableValues(s: Shape, v: nat)
    requires s.buckets > 0
    ensures Slot(s, v) < CountsLen(s) <==> v < Pow2(s.unit + s.half + s.buckets)
  {
    PlaceHolds(s, v);
    PlaceIs(s, v);
    SlotInRange(s, PlaceOf(s, v));
    var n := s.unit + s.half + s.buckets;
    if v < Pow2(n) {
      BitLenAtMost(v, n);
    } else {
      BitLenMonotone(Pow2(n), v);
      BitLenUnique(Pow2(n), n + 1);
    }
  }

  /** The source widens the class once more for a sub-bucket past the end; that never happens. */
  function SizeOfEquivalentRange(s: Shape, v: nat): nat {
    var p := PlaceOf(s, v);
    Pow2(s.unit + if p.sub >= SubBucketCount(s) then p.bucket + 1 else p.bucket)
  }

  lemma {:induction false} SizeIsWidth(s: Shape, v: nat)
    ensures SizeOfEquivalentRange(s, v) == Width(s, v)
  {
    PlaceHolds(s, v);
  }

  // ---------- the shape chosen by New ----------

  /** The least k with 2^k >= x. */
  function CeilLog2(x: nat): nat
    requires x > 0
  {
    BitLen(x - 1)
  }

  function FloorLog2(x: nat): nat
    requires x > 0
  {
    BitLenBounds(x);
    BitLen(x) - 1
  }

  lemma {:induction false} CeilLog2Bounds(x: nat)
    requires x > 0
    ensures x <= Pow2(CeilLog2(x)) && (CeilLog2(x) > 0 ==> Pow2(CeilLog2(x) - 1) < x)
  {
    BitLenBounds(x - 1);
  }

  /** What `New` guarantees of a shape for values from `min` to `max` with `sigfigs` digits. */
  ghost predicate ShapeFor(s: Shape, min: int, max: int, sigfigs: nat) {
    && Pow10(sigfigs) <= Pow2(s.half) < 2 * Pow10(sigfigs)
    && Pow2(s.unit) <= Max(min, 1) < 2 * Pow2(s.unit)
    && s.buckets > 0 && max <= Pow2(s.unit + s.half + s.buckets)
    && (s.buckets > 1 ==> Pow2(s.unit + s.half + s.buckets - 1) < max)
  }

  /** Buckets are added until their range reaches `max`. */
  method CountBuckets(unit: nat, half: nat, max: int) returns (buckets: nat)
    ensures buckets > 0 && max <= Pow2(unit + half + buckets)
    ensures buckets > 1 ==> Pow2(unit + half + buckets - 1) < max
  {
    var smallestUntrackable := Pow2(half + 1) * Pow2(unit);
    Pow2Add(half + 1, unit);
    assert half + 1 + unit == unit + half + 1;
    buckets := 1;
    while smallestUntrackable < max
      invariant buckets >= 1 && smallestUntrackable == Pow2(unit + half + buckets)
      invariant buckets > 1 ==> Pow2(unit + half + buckets - 1) < max
      decreases max - smallestUntrackable
    {
      smallestUntrackable := smallestUntrackable * 2;
      buckets := buckets + 1;
    }
  }

  method NewShape(min: int, max: int, sigfigs: int) returns (s: Shape)
    requires 1 <= sigfigs <= 5
    ensures ShapeFor(s, min, max, sigfigs)
  {
    var largest := 2 * Pow10(sigfigs);
    var magnitude := CeilLog2(largest);
    CeilLog2Bounds(largest);
    assert magnitude > 0;
    var half := (if magnitude < 1 then 1 else magnitude) - 1;
    var unit := if min < 1 then 0 else FloorLog2(min);
    BitLenBounds(Max(min, 1));
    var buckets := CountBuckets(unit, half, max);
    s := Shape(unit, half, buckets);
  }

  /** Every value below the requested maximum can be recorded. */
  lemma {:induction false} RangeIsRecordable(s: Shape, min: int, max: int, sigfigs: nat, v: nat)
    requires ShapeFor(s, min, max, sigfigs) && v < max
    ensures 0 <= Slot(s, v) < CountsLen(s)
  {
    SlotNonNegative(s, v);
    RecordableValues(s, v);
  }

  /**
   Precision: a class is no wider than the smallest tracked value, or else no wider than a
   10^sigfigs-th part of every value in it.
   */
  lemma {:induction false} PrecisionBound(s: Shape, min: int, max: int, sigfigs: nat, v: nat)
    requires ShapeFor(s, min, max, sigfigs)
    ensures Width(s, v) <= Max(min, 1) || Width(s, v) * Pow10(sigfigs) <= Lowest(s, v) <= v
  {
    PlaceHolds(s, v);
    var p := PlaceOf(s, v);
    if p.bucket > 0 {
      var w := Pow2(p.bucket + s.unit);
      assert s.unit + p.bucket == p.bucket + s.unit;
      ScaleMonotone(Pow10(sigfigs), p.sub, w);
      assert w * Pow10(sigfigs) == Pow10(sigfigs) * w;
    }
  }
}
