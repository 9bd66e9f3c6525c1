/**
 The HDR histogram: recording, iterating, merging and reading quantiles.  The counts stand
 for the multiset of recorded values, seen through their slots.
 */
module Histogram {
  import opened Wrappers
  import opened HdrIndex

  // ---------- counts of a list of values ----------

  function Sum(c: seq<int>): int { if c == [] then 0 else Sum(c[..|c| - 1]) + c[|c| - 1] }

  ghost predicate NonNegative(c: seq<int>) { forall i :: 0 <= i < |c| ==> c[i] >= 0 }

  /** How many of `values` fall into slot `k`. */
  function CountAt(s: Shape, values: seq<nat>, k: int): nat {
    if values == [] then 0
    else CountAt(s, values[..|values| - 1], k) + if Slot(s, values[|values| - 1]) == k then 1 else 0
  }

  /** `c` is the count array of `values`. */
  ghost predicate Holds(s: Shape, c: seq<int>, values: seq<nat>) {
    && |c| == CountsLen(s)
    && (forall k :: 0 <= k < |c| ==> c[k] == CountAt(s, values, k))
    && forall i :: 0 <= i < |values| ==> Slot(s, values[i]) < CountsLen(s)
  }

  lemma {:induction false} SumUpdate(c: seq<int>, i: nat, x: int)
    requires i < |c|
    ensures Sum(c[i := x]) == Sum(c) - c[i] + x
    decreases |c|
  {
    var d := c[i := x];
    if i == |c| - 1 {
      assert d[..|c| - 1] == c[..|c| - 1];
    } else {
      assert d[..|c| - 1] == c[..|c| - 1][i := x];
      SumUpdate(c[..|c| - 1], i, x);
    }
  }

  lemma {:induction false} SumGrows(c: seq<int>, k: nat)
    requires NonNegative(c) && k <= |c|
    ensures 0 <= Sum(c[..k]) <= Sum(c)
    ensures Sum(c[..k]) == Sum(c) ==> forall i :: k <= i < |c| ==> c[i] == 0
    decreases |c|
  {
    if k < |c| {
      assert c[..|c| - 1][..k] == c[..k];
      SumGrows(c[..|c| - 1], k);
    } else {
      assert c[..k] == c;
      if c != [] {
        assert c[..|c| - 1][..|c| - 1] == c[..|c| - 1];
        SumGrows(c[..|c| - 1], |c| - 1);
      }
    }
  }

  lemma {:induction false} SumPrefixStep(c: seq<int>, k: nat)
    requires k < |c|
    ensures Sum(c[..k + 1]) == Sum(c[..k]) + c[k]
  {
    assert c[..k + 1][..k] == c[..k];
  }

  lemma {:induction false} CountAtAppend(s: Shape, a: seq<nat>, b: seq<nat>, k: int)
    ensures CountAt(s, a + b, k) == CountAt(s, a, k) + CountAt(s, b, k)
    decreases |b|
  {
    if b == [] {
      assert a + b == a;
    } else {
      assert (a + b)[..|a + b| - 1] == a + b[..|b| - 1];
      CountAtAppend(s, a, b[..|b| - 1], k);
    }
  }

  /** Recording one more value keeps the counts those of the longer list. */
  lemma {:induction false} RecordHolds(s: Shape, c: seq<int>, values: seq<nat>, v: nat)
    requires Holds(s, c, values) && 0 <= Slot(s, v) < |c|
    ensures Holds(s, c[Slot(s, v) := c[Slot(s, v)] + 1], values + [v])
  {
    assert (values + [v])[..|values|] == values;
  }

  // ---------- merging ----------

  /** Where the first `n` slots of a histogram of shape `fs` land in one of shape `hs`. */
  function Targets(hs: Shape, fs: Shape, n: nat): (t: seq<nat>)
    ensures |t| == n
    ensures forall k :: 0 <= k < n ==> t[k] == Slot(hs, ValueAt(fs, k))
  {
    if n == 0 then []
    else
      SlotNonNegative(hs, ValueAt(fs, n - 1));
      Targets(hs, fs, n - 1) + [Slot(hs, ValueAt(fs, n - 1))]
  }

  datatype Merged = Merged(counts: seq<int>, dropped: int)

  /** Counts `hc` and the dropped total after adding the first `k` of `fc` at their targets. */
  function MergeSlots(hc: seq<int>, fc: seq<int>, target: seq<nat>, k: nat): (m: Merged)
    requires k <= |fc| == |target|
    ensures |m.counts| == |hc|
    decreases k
  {
    if k == 0 then Merged(hc, 0)
    else
      var m := MergeSlots(hc, fc, target, k - 1);
      var i := target[k - 1];
      if i < |hc| then Merged(m.counts[i := m.counts[i] + fc[k - 1]], m.dropped)
      else Merged(m.counts, m.dropped + fc[k - 1])
  }

  /** Nothing is lost: what is not added to a slot is reported as dropped. */
  lemma {:induction false} MergeConserves(hc: seq<int>, fc: seq<int>, target: seq<nat>, k: nat)
    requires k <= |fc| == |target|
    ensures var m := MergeSlots(hc, fc, target, k); Sum(m.counts) + m.dropped == Sum(hc) + Sum(fc[..k])
    decreases k
  {
    if k > 0 {
      MergeConserves(hc, fc, target, k - 1);
      SumPrefixStep(fc, k - 1);
      var m := MergeSlots(hc, fc, target, k - 1);
      var i := target[k - 1];
      if i < |hc| {
        SumUpdate(m.counts, i, m.counts[i] + fc[k - 1]);
      }
    }
  }

  /** Between histograms of one shape merging is pointwise addition and drops nothing. */
  lemma {:induction false} MergeSameShape(s: Shape, hc: seq<int>, fc: seq<int>, k: nat)
    requires |hc| == |fc| && k <= |fc|
    ensures var m := MergeSlots(hc, fc, Targets(s, s, |fc|), k);
            m.dropped == 0 && forall i :: 0 <= i < |hc| ==> m.counts[i] == hc[i] + if i < k then fc[i] else 0
    decreases k
  {
    if k > 0 {
      MergeSameShape(s, hc, fc, k - 1);
      SlotsAreOnto(s, k - 1);
      assert Targets(s, s, |fc|)[k - 1] == k - 1;
    }
  }

  /** Slots with a zero count make no difference. */
  lemma {:induction false} MergeSkipsZeros(hc: seq<int>, fc: seq<int>, target: seq<nat>, j: nat, k: nat, m: Merged)
    requires j <= k <= |fc| == |target| && forall i :: j <= i < k ==> fc[i] == 0
    requires m == MergeSlots(hc, fc, target, j)
    ensures m == MergeSlots(hc, fc, target, k)
    decreases k
  {
    if j < k {
      MergeSkipsZeros(hc, fc, target, j, k - 1, m);
    }
  }

  // ---------- the iterator's walk ----------

  lemma {:induction false} PlaceAtNext(s: Shape, k: nat)
    ensures var p := PlaceAt(s, k);
            PlaceAt(s, k + 1) == if p.sub + 1 >= SubBucketCount(s) then Place(p.bucket + 1, HalfCount(s))
                                 else Place(p.bucket, p.sub + 1)
  {
    var p := PlaceAt(s, k);
    PlaceAtIsInverse(s, k);
    var q := if p.sub + 1 >= SubBucketCount(s) then Place(p.bucket + 1, HalfCount(s)) else Place(p.bucket, p.sub + 1);
    SlotIs(s, p);
    SlotIs(s, q);
    assert (p.bucket + 1) * Pow2(s.half) == p.bucket * Pow2(s.half) + Pow2(s.half);
    SlotDeterminesPlace(s, q);
  }

  lemma {:induction false} PlaceAtZero(s: Shape)
    ensures PlaceAt(s, 0) == Place(0, 0)
  {
  }

  lemma {:induction false} PlaceAtInRange(s: Shape, k: nat)
    requires s.buckets > 0
    ensures PlaceAt(s, k).bucket < s.buckets <==> k < CountsLen(s)
  {
    PlaceAtIsInverse(s, k);
    SlotInRange(s, PlaceAt(s, k));
  }

  class Hist {
    const shape: Shape
    const counts: array<int>
    var total: int

    ghost predicate Wf()
      reads this
    {
      shape.buckets > 0 && counts.Length == CountsLen(shape)
    }

    ghost predicate Valid()
      reads this, counts
    {
      && Wf()
      && NonNegative(counts[..]) && total == Sum(counts[..])
    }

    constructor (shape: Shape)
      requires shape.buckets > 0
      ensures Valid() && fresh(counts) && this.shape == shape && total == 0
      ensures forall i :: 0 <= i < counts.Length ==> counts[i] == 0
    {
      this.shape := shape;
      this.counts := new int[CountsLen(shape)](_ => 0);
      this.total := 0;
      new;
      ZeroSum(counts[..]);
    }

    method Reset()
      requires Wf()
      modifies this, counts
      ensures Valid() && total == 0
      ensures forall i :: 0 <= i < counts.Length ==> counts[i] == 0
    {
      total := 0;
      for i := 0 to counts.Length
        invariant forall k :: 0 <= k < i ==> counts[k] == 0
        invariant total == 0
      {
        counts[i] := 0;
      }
      ZeroSum(counts[..]);
    }

    /** Record `n` occurrences of `v`; refused when the value has no slot. */
    method RecordValues(v: nat, n: nat) returns (ok: bool)
      requires Valid()
      modifies this, counts
      ensures Valid()
      ensures ok <==> Slot(shape, v) < counts.Length
      ensures ok ==> 0 <= Slot(shape, v) && total == old(total) + n
                     && counts[..] == old(counts[..])[Slot(shape, v) := old(counts[..])[Slot(shape, v)] + n]
      ensures !ok ==> total == old(total) && counts[..] == old(counts[..])
    {
      SlotNonNegative(shape, v);
      var idx := Slot(shape, v);
      if idx < 0 || counts.Length <= idx { return false; }
      SumUpdate(counts[..], idx, counts[idx] + n);
      counts[idx] := counts[idx] + n;
      total := total + n;
      assert counts[..] == old(counts[..])[idx := old(counts[..])[idx] + n];
      return true;
    }

    /** Add slot `k` of a histogram with counts `fc`, whose value is `v`. */
    method MergeSlot(v: nat, n: nat, before: int, ghost hc: seq<int>, ghost fc: seq<int>, ghost target: seq<nat>,
                     ghost k: nat)
      returns (dropped: int)
      requires Valid() && |hc| == counts.Length && k < |fc| == |target| && target[k] == Slot(shape, v) && n == fc[k]
      requires Merged(counts[..], before) == MergeSlots(hc, fc, target, k)
      modifies this, counts
      ensures Valid() && Merged(counts[..], dropped) == MergeSlots(hc, fc, target, k + 1)
    {
      dropped := before;
      var ok := RecordValues(v, n);
      if !ok {
        dropped := dropped + n;
      }
    }

    /** Merge another histogram slot by slot, reporting how many values had to be dropped. */
    method Merge(from: Hist) returns (dropped: int)
      requires Valid() && from.Valid() && from != this && from.counts != counts
      modifies this, counts
      ensures Valid() && from.Valid() && from.counts[..] == old(from.counts[..])
      ensures var n := from.counts.Length;
              Merged(counts[..], dropped)
              == MergeSlots(old(counts[..]), from.counts[..], Targets(shape, from.shape, n), n)
      ensures total + dropped == old(total) + from.total
    {
      ghost var hc, fc := counts[..], from.counts[..];
      ghost var target := Targets(shape, from.shape, |fc|);
      dropped := MergeRecorded(from, hc, fc, target);
      MergeConserves(hc, fc, target, |fc|);
      assert fc[..|fc|] == fc;
    }

    /** The first `done` slots of `from` have been merged; the iterator stands at the next that holds anything. */
    ghost predicate Merging(i: Iter, from: Hist, hc: seq<int>, fc: seq<int>, target: seq<nat>, more: bool, done: nat,
                            dropped: int)
      reads this, counts, i, i.h, i.h.counts
    {
      && Valid() && i.h == from && from != this && from.counts != counts
      && i.Valid() && from.Valid() && from.counts[..] == fc
      && |hc| == counts.Length && target == Targets(shape, from.shape, |fc|)
      && (if more then
            i.steps == done + 1 && done < |fc| && i.countAt == fc[done] && i.value == ValueAt(from.shape, done)
          else done == |fc|)
      && Merged(counts[..], dropped) == MergeSlots(hc, fc, target, done)
    }

    /** The loop of `Merge`: every slot of `from` that holds anything. */
    method MergeRecorded(from: Hist, ghost hc: seq<int>, ghost fc: seq<int>, ghost target: seq<nat>)
      returns (dropped: int)
      requires Valid() && from.Valid() && from != this && from.counts != counts
      requires hc == counts[..] && fc == from.counts[..] && target == Targets(shape, from.shape, |fc|)
      modifies this, counts
      ensures Valid() && from.Valid() && from.counts[..] == fc
      ensures Merged(counts[..], dropped) == MergeSlots(hc, fc, target, |fc|)
    {
      dropped := 0;
      var i := new Iter(from);
      var more;
      ghost var done;
      more, done := Seek(i, fc, 0);
      MergeSkipsZeros(hc, fc, target, 0, done, Merged(hc, 0));
      while more
        invariant Merging(i, from, hc, fc, target, more, done, dropped)
        decreases |fc| - done, more
      {
        dropped, more, done := MergeNext(i, from, dropped, hc, fc, target, done);
      }
    }

    method MergeNext(i: Iter, from: Hist, before: int, ghost hc: seq<int>, ghost fc: seq<int>, ghost target: seq<nat>,
                     ghost k: nat)
      returns (dropped: int, more: bool, ghost done: nat)
      requires Merging(i, from, hc, fc, target, true, k, before)
      modifies this, counts, i
      ensures Merging(i, from, hc, fc, target, more, done, dropped) && k < done <= |fc|
    {
      dropped := MergeSlot(i.value, i.countAt, before, hc, fc, target, k);
      more, done := Seek(i, fc, k + 1);
      MergeSkipsZeros(hc, fc, target, k + 1, done, Merged(counts[..], dropped));
    }

    /** The next slot of `fc` from `k` on that holds anything. */
    method Seek(i: Iter, ghost fc: seq<int>, ghost k: nat) returns (more: bool, ghost done: nat)
      requires i.Valid() && i.h.Valid() && i.h != this && fc == i.h.counts[..] && i.steps == k <= |fc|
      modifies i
      ensures i.Valid() && k <= done <= |fc| && forall j :: k <= j < done ==> fc[j] == 0
      ensures if more then
                i.steps == done + 1 && done < |fc| && i.countAt == fc[done] && i.value == ValueAt(i.h.shape, done)
              else done == |fc|
    {
      more := i.NextRecorded();
      done := if more then i.steps - 1 else |fc|;
    }

    /** The scan of the counts for the first slot at which the running count reaches `rank`. */
    method ValueAtRank(rank: int) returns (v: int)
      requires Valid()
      ensures 0 < rank <= total ==>
                exists k :: 0 <= k < counts.Length && Sum(counts[..k]) < rank <= Sum(counts[..k + 1])
                            && v == Highest(shape, ValueAt(shape, k))
      ensures rank <= 0 < total ==> v == Highest(shape, ValueAt(shape, 0))
      ensures rank > total || total == 0 ==> v == 0
    {
      var sum := 0;
      var i := new Iter(this);
      i.AllCounted();
      var more := i.Next();
      while more
        invariant i.h == this && i.Valid() && Valid()
        invariant sum == Sum(counts[..if more then i.steps - 1 else i.steps])
        invariant more ==> 0 < i.steps && 0 < total
        invariant sum >= 0
        invariant (if more then i.steps > 1 else i.steps > 0) ==> sum < rank
        invariant !more ==> sum >= total
        decreases counts.Length - i.steps, more
      {
        ghost var k := i.steps - 1;
        SumPrefixStep(counts[..], k);
        assert counts[..][..k + 1] == counts[..k + 1] && counts[..][..k] == counts[..k];
        i.AllCounted();
        sum := sum + i.countAt;
        assert i.countAt == counts[..][k] >= 0;
        if sum >= rank {
          SizeIsWidth(shape, i.value);
          assert rank <= 0 ==> k == 0;
          return Lowest(shape, i.value) + SizeOfEquivalentRange(shape, i.value) - 1;
        }
        more := i.Next();
      }
      i.AllCounted();
      return 0;
    }

    /**
     The q-th percentile: whatever values were recorded, the top of the class of the one at the
     rank nearest to q percent.  A rank below one gives the top of the lowest class, recorded or not.
     */
    method ValueAtQuantile(q: real) returns (v: int)
      requires Valid()
      ensures total == 0 ==> v == 0
      ensures Rank(q, total) <= 0 < total ==> v == Highest(shape, ValueAt(shape, 0))
      ensures Rank(q, total) > 0 ==> IsRanked(shape, counts[..], Rank(q, total), v)
    {
      var rank := Rank(q, total);
      SumGrows(counts[..], 0);
      RankAtMostTotal(q, total);
      v := ValueAtRank(rank);
      if rank > 0 {
        ghost var c := counts[..];
        ghost var k :| 0 <= k < |c| && Sum(counts[..k]) < rank <= Sum(counts[..k + 1])
                 && v == Highest(shape, ValueAt(shape, k));
        assert c[..k] == counts[..k] && c[..k + 1] == counts[..k + 1];
        assert rank <= total == Sum(c);
        FoundIsRanked(shape, c, rank, k);
      }
    }
  }

  lemma {:induction false} ZeroSum(c: seq<int>)
    requires forall i :: 0 <= i < |c| ==> c[i] == 0
    ensures Sum(c) == 0
  {
    if c != [] {
      ZeroSum(c[..|c| - 1]);
    }
  }

  /** The hand-written iterator over the count array. */
  class Iter {
    const h: Hist
    var bucket: int
    var sub: int
    var countAt: int
    var countTo: int
    var value: nat
    /** How many slots have been visited. */
    ghost var steps: nat

    /** After `steps` visits the iterator stands on slot `steps - 1` and has summed the slots so far. */
    ghost predicate Valid()
      reads this, h, h.counts
    {
      && h.Wf() && steps <= h.counts.Length
      && countTo == Sum(h.counts[..steps])
      && (steps == 0 ==> bucket == 0 && sub == -1)
      && (steps > 0 ==>
            && bucket == PlaceAt(h.shape, steps - 1).bucket && sub == PlaceAt(h.shape, steps - 1).sub
            && countAt == h.counts[steps - 1] && value == ValueAt(h.shape, steps - 1))
    }

    constructor (h: Hist)
      requires h.Wf()
      ensures Valid() && this.h == h && steps == 0
    {
      this.h := h;
      bucket, sub, countAt, countTo, value, steps := 0, -1, 0, 0, 0, 0;
    }

    /** The bucket arithmetic of one step leads to the place of the next slot. */
    method Advance()
      requires Valid()
      modifies this`bucket, this`sub
      ensures bucket == PlaceAt(h.shape, steps).bucket && sub == PlaceAt(h.shape, steps).sub
    {
      sub := sub + 1;
      if sub >= SubBucketCount(h.shape) {
        sub := HalfCount(h.shape);
        bucket := bucket + 1;
      }
      if steps == 0 {
        PlaceAtZero(h.shape);
      } else {
        PlaceAtNext(h.shape, steps - 1);
      }
    }

    /** One step: it reads the next slot of the array, until all are read or everything is counted. */
    method Next() returns (more: bool)
      requires Valid()
      modifies this
      ensures more <==> old(countTo) < h.total && old(steps) < h.counts.Length
      ensures more ==> Valid() && steps == old(steps) + 1
      ensures old(countTo) >= h.total ==> Valid()
      ensures !more ==> steps == old(steps)
    {
      if countTo >= h.total { return false; }
      Advance();
      PlaceAtInRange(h.shape, steps);
      if bucket >= h.shape.buckets { return false; }
      PlaceAtIsInverse(h.shape, steps);
      countAt := h.counts[CountsIndex(h.shape, bucket, sub)];
      ghost var c := h.counts[..];
      SumPrefixStep(c, steps);
      assert c[..steps] == h.counts[..steps] && c[..steps + 1] == h.counts[..steps + 1];
      countTo := countTo + countAt;
      value := ValueFromIndex(h.shape, bucket, sub);
      steps := steps + 1;
      return true;
    }

    /** Steps until a slot with a count, as the recorded-values iterator does. */
    method NextRecorded() returns (more: bool)
      requires Valid() && h.Valid()
      modifies this
      ensures Valid() && steps >= old(steps)
      ensures more ==> steps > old(steps) && countAt != 0
                       && forall i :: old(steps) <= i < steps - 1 ==> h.counts[i] == 0
      ensures !more ==> forall i :: old(steps) <= i < h.counts.Length ==> h.counts[i] == 0
    {
      ghost var start := steps;
      AllCounted();
      more := Next();
      while more
        invariant Valid() && h.Valid() && steps >= start && (more ==> steps > start)
        invariant forall i :: start <= i < (if more then steps - 1 else steps) ==> h.counts[i] == 0
        invariant !more ==> countTo >= h.total
        decreases h.counts.Length - steps, more
      {
        if countAt != 0 { return; }
        AllCounted();
        more := Next();
      }
      AllCounted();
    }

    /** Once everything has been counted the remaining slots are empty. */
    lemma AllCounted()
      requires Valid() && h.Valid()
      ensures countTo <= h.total && (steps == h.counts.Length ==> countTo == h.total)
      ensures countTo == h.total ==> forall i :: steps <= i < h.counts.Length ==> h.counts[i] == 0
    {
      SumGrows(h.counts[..], steps);
      assert h.counts[..][..steps] == h.counts[..steps];
      if steps == h.counts.Length {
        assert h.counts[..steps] == h.counts[..];
      }
    }
  }

  // ---------- quantiles ----------

  ghost predicate Sorted(values: seq<nat>) {
    forall i, j :: 0 <= i <= j < |values| ==> values[i] <= values[j]
  }

  /** Conversion to an integer drops the fraction. */
  function Truncate(x: real): int { if x >= 0.0 then x.Floor else -(-x).Floor }

  /** The rank of the q-th percentile among `total` values. */
  function Rank(q: real, total: int): int {
    Truncate((if q > 100.0 then 100.0 else q) / 100.0 * (total as real) + 0.5)
  }

  lemma {:induction false} RankAtMostTotal(q: real, total: int)
    requires total >= 0
    ensures Rank(q, total) <= total && (total == 0 ==> Rank(q, total) == 0)
  {
    var p := (if q > 100.0 then 100.0 else q) / 100.0;
    assert p <= 1.0;
    assert (1.0 - p) * (total as real) >= 0.0;
    assert p * (total as real) <= total as real;
  }

  /** The rank is the integer nearest to q percent of the total, a half counting up. */
  lemma {:induction false} RankIsNearest(q: real, total: int)
    requires 0.0 <= q <= 100.0 && total >= 0
    ensures (Rank(q, total) as real) - 0.5 <= q / 100.0 * (total as real) < (Rank(q, total) as real) + 0.5
  {
    assert q / 100.0 * (total as real) >= 0.0;
  }

  lemma {:induction false} HeldCount(s: Shape, c: seq<int>, values: seq<nat>)
    requires Holds(s, c, values)
    ensures Sum(c) == |values|
  {
    assert c[..|c|] == c;
    PrefixSums(s, c, values, |c|);
    AllHeld(s, values, |c|);
  }

  lemma {:induction false} AllHeld(s: Shape, values: seq<nat>, k: int)
    requires forall i :: 0 <= i < |values| ==> Slot(s, values[i]) < k
    ensures Below(s, values, k) == |values|
  {
    if values != [] {
      AllHeld(s, values[..|values| - 1], k);
    }
  }

  /** How many of `values` fall below slot `k`. */
  function Below(s: Shape, values: seq<nat>, k: int): nat {
    if values == [] then 0
    else Below(s, values[..|values| - 1], k) + if Slot(s, values[|values| - 1]) < k then 1 else 0
  }

  lemma {:induction false} BelowStep(s: Shape, values: seq<nat>, k: int)
    ensures Below(s, values, k + 1) == Below(s, values, k) + CountAt(s, values, k)
  {
    if values != [] {
      BelowStep(s, values[..|values| - 1], k);
    }
  }

  lemma {:induction false} BelowZero(s: Shape, values: seq<nat>)
    ensures Below(s, values, 0) == 0
  {
    if values != [] {
      BelowZero(s, values[..|values| - 1]);
      SlotNonNegative(s, values[|values| - 1]);
    }
  }

  lemma {:induction false} BelowBound(s: Shape, values: seq<nat>, k: int)
    ensures Below(s, values, k) <= |values|
  {
    if values != [] {
      BelowBound(s, values[..|values| - 1], k);
    }
  }

  /** Prefix sums of the counts count the values in the lower slots. */
  lemma {:induction false} PrefixSums(s: Shape, c: seq<int>, values: seq<nat>, k: nat)
    requires Holds(s, c, values) && k <= |c|
    ensures Sum(c[..k]) == Below(s, values, k)
    decreases k
  {
    if k == 0 {
      BelowZero(s, values);
    } else {
      PrefixSums(s, c, values, k - 1);
      SumPrefixStep(c, k - 1);
      BelowStep(s, values, k - 1);
    }
  }

  /** In sorted order the values of the lower slots come first. */
  lemma {:induction false} SortedBelow(s: Shape, values: seq<nat>, k: int, i: nat)
    requires Sorted(values) && i < |values|
    ensures Slot(s, values[i]) < k <==> i < Below(s, values, k)
    decreases |values|
  {
    var init, last := values[..|values| - 1], values[|values| - 1];
    BelowBound(s, init, k);
    SlotIsMonotone(s, values[i], last);
    if i < |init| {
      SortedBelow(s, init, k, i);
    } else if Slot(s, last) < k {
      AllBelow(s, values, k);
    }
  }

  lemma {:induction false} AllBelow(s: Shape, values: seq<nat>, k: int)
    requires Sorted(values) && values != [] && Slot(s, values[|values| - 1]) < k
    ensures Below(s, values, k) == |values|
    decreases |values|
  {
    var init := values[..|values| - 1];
    if init != [] {
      SlotIsMonotone(s, init[|init| - 1], values[|values| - 1]);
      AllBelow(s, init, k);
    }
  }

  /** The counts do not depend on the order in which values were recorded. */
  lemma {:induction false} CountAtPermutation(s: Shape, a: seq<nat>, b: seq<nat>, k: int)
    requires multiset(a) == multiset(b)
    ensures CountAt(s, a, k) == CountAt(s, b, k)
    decreases |a|
  {
    assert |a| == |multiset(a)| == |multiset(b)| == |b|;
    if a != [] {
      var x := a[|a| - 1];
      assert x in multiset(b);
      var j :| 0 <= j < |b| && b[j] == x;
      var b' := b[..j] + b[j + 1..];
      assert b == b[..j] + ([x] + b[j + 1..]);
      assert a == a[..|a| - 1] + [x];
      assert multiset(b') == multiset(b) - multiset{x};
      assert multiset(a[..|a| - 1]) == multiset(a) - multiset{x};
      CountAtPermutation(s, a[..|a| - 1], b', k);
      CountAtAppend(s, b[..j], [x] + b[j + 1..], k);
      CountAtAppend(s, [x], b[j + 1..], k);
      CountAtAppend(s, b[..j], b[j + 1..], k);
      CountAtAppend(s, a[..|a| - 1], [x], k);
    }
  }

  /**
   The slot found by the quantile scan for rank `r` is that of the r-th smallest recorded
   value, so the scan returns the top of that value's class.
   */
  lemma {:induction false} RankFindsValue(s: Shape, c: seq<int>, values: seq<nat>, sorted: seq<nat>, r: int, k: nat)
    requires Holds(s, c, values) && Sorted(sorted) && multiset(sorted) == multiset(values)
    requires 0 < r <= |sorted| && k < |c| && Sum(c[..k]) < r <= Sum(c[..k + 1])
    ensures Slot(s, sorted[r - 1]) == k
    ensures Highest(s, ValueAt(s, k)) == Highest(s, sorted[r - 1])
  {
    forall i | 0 <= i < |c| ensures c[i] == CountAt(s, sorted, i) {
      CountAtPermutation(s, values, sorted, i);
    }
    forall i | 0 <= i < |sorted| ensures Slot(s, sorted[i]) < CountsLen(s) {
      assert sorted[i] in multiset(values);
    }
    PrefixSums(s, c, sorted, k);
    PrefixSums(s, c, sorted, k + 1);
    SortedBelow(s, sorted, k, r - 1);
    SortedBelow(s, sorted, k + 1, r - 1);
    SameSlotSameTop(s, ValueAt(s, k), sorted[r - 1]);
  }

  /** Whatever values the counts are of, `v` is the top of the class of the one at `rank`. */
  ghost predicate IsRanked(s: Shape, c: seq<int>, rank: int, v: int)
    requires rank > 0
  {
    forall values: seq<nat>, sorted: seq<nat> ::
      Holds(s, c, values) && Sorted(sorted) && multiset(sorted) == multiset(values)
      ==> rank <= |sorted| && v == Highest(s, sorted[rank - 1])
  }

  lemma {:induction false} FoundIsRanked(s: Shape, c: seq<int>, rank: int, k: nat)
    requires 0 < rank <= Sum(c) && k < |c| && Sum(c[..k]) < rank <= Sum(c[..k + 1])
    ensures IsRanked(s, c, rank, Highest(s, ValueAt(s, k)))
  {
    forall values: seq<nat>, sorted: seq<nat>
      | Holds(s, c, values) && Sorted(sorted) && multiset(sorted) == multiset(values)
      ensures rank <= |sorted| && Highest(s, ValueAt(s, k)) == Highest(s, sorted[rank - 1])
    {
      HeldCount(s, c, values);
      assert |sorted| == |multiset(sorted)| == |multiset(values)| == |values|;
      RankFindsValue(s, c, values, sorted, rank, k);
    }
  }

  lemma {:induction false} SameSlotSameTop(s: Shape, v: nat, w: nat)
    requires Slot(s, w) >= 0
    ensures Slot(s, v) == Slot(s, w) ==> Highest(s, v) == Highest(s, w)
    ensures forall k: nat :: v == ValueAt(s, k) ==> Slot(s, v) == k
  {
    PlaceHolds(s, v);
    PlaceHolds(s, w);
    SlotDeterminesPlace(s, PlaceOf(s, v));
    SlotDeterminesPlace(s, PlaceOf(s, w));
    forall k: nat ensures Slot(s, ValueAt(s, k)) == k {
      SlotsAreOnto(s, k);
    }
  }
}
