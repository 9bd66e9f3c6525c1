/**
 The sliding window of histograms.  After any sequence of records and rotations, merging the
 window gives the counts of exactly the values recorded during the last n rotations.
 */
module Window {
  import opened Wrappers
  import opened HdrIndex
  import opened Histogram

  function Flat(epochs: seq<seq<nat>>): seq<nat> {
    if epochs == [] then [] else Flat(epochs[..|epochs| - 1]) + epochs[|epochs| - 1]
  }

  /** The epochs of the last `n` rotations. */
  function Recent(epochs: seq<seq<nat>>, n: nat): seq<seq<nat>> {
    if |epochs| <= n then epochs else epochs[|epochs| - n..]
  }

  /** The epoch whose values slot `j` of an `n`-slot window holds; none before its first use. */
  function EpochIn(count: nat, n: nat, j: nat): int
    requires n > 0 && count > 0 && j < n
  {
    var current := (count - 1) % n;
    (count - 1 - current) + j - if j <= current then 0 else n
  }

  function Content(epochs: seq<seq<nat>>, n: nat, j: nat): seq<nat>
    requires n > 0 && epochs != [] && j < n
  {
    var e := EpochIn(|epochs|, n, j);
    if e < 0 then [] else epochs[e]
  }

  lemma {:induction false} EpochInBounds(count: nat, n: nat, j: nat)
    requires n > 0 && count > 0 && j < n
    ensures EpochIn(count, n, j) < count
    ensures EpochIn(count, n, j) == count - 1 <==> j == (count - 1) % n
  {
  }

  /** A rotation re-uses exactly the slot of the next index and leaves the others alone. */
  lemma {:induction false} RotateContent(epochs: seq<seq<nat>>, n: nat, j: nat)
    requires n > 0 && epochs != [] && j < n
    ensures Content(epochs + [[]], n, j) == if j == |epochs| % n then [] else Content(epochs, n, j)
  {
    var count := |epochs|;
    EpochInBounds(count, n, j);
    EpochInBounds(count + 1, n, j);
    var c := (count - 1) % n;
    NextMod(count - 1, n);
    if j != count % n {
      assert EpochIn(count + 1, n, j) == EpochIn(count, n, j);
    }
  }

  lemma {:induction false} NextMod(a: nat, n: nat)
    requires n > 0
    ensures (a + 1) % n == if a % n == n - 1 then 0 else a % n + 1
  {
    var q := a / n;
    assert a == n * q + a % n;
    if a % n == n - 1 {
      assert a + 1 == n * (q + 1);
      ModIs(a + 1, n, q + 1, 0);
    } else {
      ModIs(a + 1, n, q, a % n + 1);
    }
  }

  lemma {:induction false} ModIs(x: int, n: int, q: int, r: int)
    requires n > 0 && x == n * q + r && 0 <= r < n
    ensures x % n == r
  {
    assert q * n == n * q;
    QuotientIs(x, n, q);
    assert x == n * (x / n) + x % n;
  }

  /** Recording changes only the slot of the current epoch. */
  lemma {:induction false} RecordContent(epochs: seq<seq<nat>>, n: nat, v: nat, j: nat)
    requires n > 0 && epochs != [] && j < n
    ensures var last := |epochs| - 1;
            Content(epochs[last := epochs[last] + [v]], n, j)
            == if j == last % n then Content(epochs, n, j) + [v] else Content(epochs, n, j)
  {
    EpochInBounds(|epochs|, n, j);
  }

  // ---------- the slots together hold the recent epochs ----------

  /** How many values of each epoch fall into slot `k`. */
  function PerEpoch(s: Shape, epochs: seq<seq<nat>>, k: int): (cs: seq<int>)
    ensures |cs| == |epochs| && forall i :: 0 <= i < |epochs| ==> cs[i] == CountAt(s, epochs[i], k)
  {
    if epochs == [] then [] else PerEpoch(s, epochs[..|epochs| - 1], k) + [CountAt(s, epochs[|epochs| - 1], k)]
  }

  /** The count of epoch `e`; there are no epochs before the first. */
  function EpochCount(cs: seq<int>, e: int): int { if 0 <= e < |cs| then cs[e] else 0 }

  /** The counts of the epochs from `lo` up to `hi`. */
  function RangeCount(cs: seq<int>, lo: int, hi: int): int
    decreases hi - lo
  {
    if lo >= hi then 0 else RangeCount(cs, lo, hi - 1) + EpochCount(cs, hi - 1)
  }

  /** The counts of the epochs in the first `m` histograms of the window. */
  function SlotsCount(cs: seq<int>, n: nat, m: nat): int
    requires n > 0 && cs != [] && m <= n
  {
    if m == 0 then 0 else SlotsCount(cs, n, m - 1) + EpochCount(cs, EpochIn(|cs|, n, m - 1))
  }

  lemma {:induction false} RangeSplit(cs: seq<int>, a: int, b: int, c: int)
    requires a <= b <= c
    ensures RangeCount(cs, a, c) == RangeCount(cs, a, b) + RangeCount(cs, b, c)
    decreases c - b
  {
    if b < c {
      RangeSplit(cs, a, b, c - 1);
    }
  }

  lemma {:induction false} RangeBeforeFirst(cs: seq<int>, a: int, b: int)
    requires b <= 0
    ensures RangeCount(cs, a, b) == 0
    decreases b - a
  {
    if a < b {
      RangeBeforeFirst(cs, a, b - 1);
    }
  }

  lemma {:induction false} RangeIsSum(cs: seq<int>, a: nat, b: nat)
    requires a <= b <= |cs|
    ensures RangeCount(cs, a, b) == Sum(cs[a..b])
    decreases b
  {
    if a < b {
      RangeIsSum(cs, a, b - 1);
      assert cs[a..b][..b - a - 1] == cs[a..b - 1];
    }
  }

  lemma {:induction false} FlatCount(s: Shape, epochs: seq<seq<nat>>, k: int)
    ensures CountAt(s, Flat(epochs), k) == Sum(PerEpoch(s, epochs, k))
    decreases |epochs|
  {
    if epochs != [] {
      var init, last := epochs[..|epochs| - 1], epochs[|epochs| - 1];
      FlatCount(s, init, k);
      CountAtAppend(s, Flat(init), last, k);
      SumSnoc(PerEpoch(s, init, k), CountAt(s, last, k));
    }
  }

  lemma {:induction false} SumSnoc(cs: seq<int>, c: int)
    ensures Sum(cs + [c]) == Sum(cs) + c
  {
    assert (cs + [c])[..|cs|] == cs;
  }

  /** Slot order is epoch order turned round at the current slot. */
  lemma {:induction false} SlotsAreRanges(cs: seq<int>, n: nat, m: nat, current: nat, base: nat)
    requires n > 0 && cs != [] && m <= n && current == (|cs| - 1) % n && base == |cs| - 1 - current
    ensures SlotsCount(cs, n, m)
            == if m <= current + 1 then RangeCount(cs, base, base + m)
               else RangeCount(cs, base, |cs|) + RangeCount(cs, base + current + 1 - n, base + m - n)
    decreases m
  {
    if m > 0 {
      SlotsAreRanges(cs, n, m - 1, current, base);
    }
  }

  lemma {:induction false} ContentCount(s: Shape, epochs: seq<seq<nat>>, n: nat, j: nat, k: int)
    requires n > 0 && epochs != [] && j < n
    ensures CountAt(s, Content(epochs, n, j), k) == EpochCount(PerEpoch(s, epochs, k), EpochIn(|epochs|, n, j))
  {
    EpochInBounds(|epochs|, n, j);
  }

  lemma {:induction false} SlotsAreOneRange(cs: seq<int>, n: nat)
    requires n > 0 && cs != []
    ensures SlotsCount(cs, n, n) == RangeCount(cs, |cs| - n, |cs|)
  {
    var current := (|cs| - 1) % n;
    var base := |cs| - 1 - current;
    SlotsAreRanges(cs, n, n, current, base);
    if n > current + 1 {
      RangeSplit(cs, |cs| - n, base, |cs|);
    }
  }

  lemma {:induction false} RangeIsRecent(cs: seq<int>, n: nat)
    requires cs != []
    ensures RangeCount(cs, |cs| - n, |cs|) == Sum(if |cs| <= n then cs else cs[|cs| - n..])
  {
    if |cs| <= n {
      RangeSplit(cs, |cs| - n, 0, |cs|);
      RangeBeforeFirst(cs, |cs| - n, 0);
      assert cs[0..|cs|] == cs;
      RangeIsSum(cs, 0, |cs|);
    } else {
      assert cs[|cs| - n..|cs|] == cs[|cs| - n..];
      RangeIsSum(cs, |cs| - n, |cs|);
    }
  }

  /** All slots together count the values of the last n epochs. */
  lemma {:induction false} WindowCounts(s: Shape, epochs: seq<seq<nat>>, n: nat, k: int)
    requires n > 0 && epochs != []
    ensures SlotsCount(PerEpoch(s, epochs, k), n, n) == CountAt(s, Flat(Recent(epochs, n)), k)
  {
    var cs := PerEpoch(s, epochs, k);
    SlotsAreOneRange(cs, n);
    RangeIsRecent(cs, n);
    FlatCount(s, Recent(epochs, n), k);
    assert PerEpoch(s, Recent(epochs, n), k) == if |cs| <= n then cs else cs[|cs| - n..];
  }

  // ---------- the object ----------

  /** A window of `n` histograms; `epochs` is the history of recorded values, one list per rotation. */
  class Windowed {
    const shape: Shape
    const h: seq<Hist>
    const m: Hist
    var idx: int
    ghost var epochs: seq<seq<nat>>

    ghost predicate Separate()
      reads this
    {
      && |h| > 0 && m !in h
      && (forall i, j :: 0 <= i < j < |h| ==> h[i] != h[j] && h[i].counts != h[j].counts)
      && forall i :: 0 <= i < |h| ==> h[i].counts != m.counts
    }

    /** The objects the window owns. */
    ghost function Repr(): set<object>
      reads this
    {
      {m, m.counts} + (set i | 0 <= i < |h| :: h[i]) + (set i | 0 <= i < |h| :: h[i].counts)
    }

    ghost predicate Valid()
      reads this, Repr()
    {
      && Separate() && epochs != [] && idx == |epochs| - 1
      && m.shape == shape && m.Wf()
      && forall i :: 0 <= i < |h| ==>
           h[i].shape == shape && h[i].Valid() && Holds(shape, h[i].counts[..], Content(epochs, |h|, i))
    }

    constructor (n: nat, shape: Shape)
      requires n > 0 && shape.buckets > 0
      ensures Valid() && this.shape == shape && |h| == n && epochs == [[]] && fresh(Repr())
    {
      var merged := new Hist(shape);
      var hs: seq<Hist> := [];
      while |hs| < n
        invariant |hs| <= n
        invariant forall i, j :: 0 <= i < j < |hs| ==> hs[i] != hs[j] && hs[i].counts != hs[j].counts
        invariant merged !in hs && merged.shape == shape && merged.Wf() && fresh(merged) && fresh(merged.counts)
        invariant forall i :: 0 <= i < |hs| ==> fresh(hs[i]) && fresh(hs[i].counts) && hs[i].counts != merged.counts
        invariant forall i :: 0 <= i < |hs| ==>
                    hs[i].shape == shape && hs[i].Valid() && Holds(shape, hs[i].counts[..], [])
        decreases n - |hs|
      {
        var one := new Hist(shape);
        hs := hs + [one];
      }
      this.shape, h, m, idx, epochs := shape, hs, merged, 0, [[]];
      new;
      forall i | 0 <= i < n ensures Content([[]], n, i) == [] {
        assert 0 % n == 0;
      }
    }

    /** What histogram `i` counts once `v` has been put into the current one. */
    ghost function ContentWith(v: nat, i: nat): seq<nat>
      requires i < |h| && epochs != []
      reads this
    {
      if i == idx % |h| then Content(epochs, |h|, i) + [v] else Content(epochs, |h|, i)
    }

    /** The count of the current histogram, before the history says so. */
    method RecordCurrent(v: nat) returns (ok: bool)
      requires Valid()
      modifies h[idx % |h|], h[idx % |h|].counts
      ensures ok <==> Slot(shape, v) < CountsLen(shape)
      ensures !ok ==> Valid()
      ensures ok ==> forall i :: 0 <= i < |h| ==>
                       h[i].shape == shape && h[i].Valid() && Holds(shape, h[i].counts[..], ContentWith(v, i))
    {
      var current := h[idx % |h|];
      ghost var c := current.counts[..];
      ok := current.RecordValues(v, 1);
      if !ok { return; }
      RecordHolds(shape, c, Content(epochs, |h|, idx % |h|), v);
      forall i | 0 <= i < |h| && i != idx % |h|
        ensures h[i].shape == shape && h[i].Valid() && Holds(shape, h[i].counts[..], Content(epochs, |h|, i))
      {
        assert h[i].counts[..] == old(h[i].counts[..]);
      }
    }

    /** Record into the current histogram; a value that has no slot is refused and not counted. */
    method Record(v: nat) returns (ok: bool)
      requires Valid()
      modifies this`epochs, h[idx % |h|], h[idx % |h|].counts
      ensures Valid()
      ensures ok <==> Slot(shape, v) < CountsLen(shape)
      ensures epochs == if ok then old(epochs)[idx := old(epochs)[idx] + [v]] else old(epochs)
    {
      ok := RecordCurrent(v);
      if ok {
        ghost var next := epochs[idx := epochs[idx] + [v]];
        forall i | 0 <= i < |h| ensures Content(next, |h|, i) == ContentWith(v, i) {
          RecordContent(epochs, |h|, v, i);
        }
        epochs := next;
      }
    }

    /** Re-use the oldest histogram for a new epoch. */
    method Rotate()
      requires Valid()
      modifies this`idx, this`epochs, h[(idx + 1) % |h|], h[(idx + 1) % |h|].counts
      ensures Valid()
      ensures epochs == old(epochs) + [[]]
    {
      idx := idx + 1;
      var current := h[idx % |h|];
      current.Reset();
      ghost var next := epochs + [[]];
      forall i | 0 <= i < |h|
        ensures Content(next, |h|, i) == if i == idx % |h| then [] else Content(epochs, |h|, i)
      {
        RotateContent(epochs, |h|, i);
      }
      epochs := next;
    }

    /** Merge histogram `i` into the result, which then counts one slot more. */
    method AddSlot(i: nat)
      requires Valid() && m.Valid() && i < |h|
      requires forall k :: 0 <= k < m.counts.Length ==> m.counts[k] == SlotsCount(PerEpoch(shape, epochs, k), |h|, i)
      modifies m, m.counts
      ensures Valid() && m.Valid() && epochs == old(epochs)
      ensures forall k :: 0 <= k < m.counts.Length ==> m.counts[k] == SlotsCount(PerEpoch(shape, epochs, k), |h|, i + 1)
    {
      ghost var before, added := m.counts[..], h[i].counts[..];
      var _ := m.Merge(h[i]);
      MergeSameShape(shape, before, added, |added|);
      forall k | 0 <= k < |before| ensures m.counts[k] == SlotsCount(PerEpoch(shape, epochs, k), |h|, i + 1) {
        assert m.counts[k] == before[k] + added[k];
        ContentCount(shape, epochs, |h|, i, k);
      }
    }

    /** The merged histogram counts exactly the values recorded in the last |h| epochs. */
    method Merge() returns (r: Hist)
      requires Valid()
      modifies m, m.counts
      ensures Valid() && epochs == old(epochs) && r == m && r.Valid()
      ensures forall k :: 0 <= k < r.counts.Length ==> r.counts[k] == CountAt(shape, Flat(Recent(epochs, |h|)), k)
    {
      m.Reset();
      ghost var n := |h|;
      for i := 0 to |h|
        invariant Valid() && m.Valid() && epochs == old(epochs)
        invariant forall k :: 0 <= k < m.counts.Length ==> m.counts[k] == SlotsCount(PerEpoch(shape, epochs, k), n, i)
      {
        AddSlot(i);
      }
      forall k | 0 <= k < m.counts.Length
        ensures m.counts[k] == CountAt(shape, Flat(Recent(epochs, n)), k)
      {
        WindowCounts(shape, epochs, n, k);
      }
      r := m;
    }
  }
}
