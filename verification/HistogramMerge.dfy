/** What merging histograms of different shapes does to the values recorded in them. */
module HistogramMerge {
  import opened HdrIndex
  import opened Histogram

  /** The slot in `hs` of the class of `v` in `fs`, told by the lowest value of the class. */
  function Moved(hs: Shape, fs: Shape, v: nat): int { Slot(hs, Lowest(fs, v)) }

  /** How many of `values` in the first `n` slots of `fs` move to slot `k`. */
  function MovedTo(hs: Shape, fs: Shape, values: seq<nat>, n: int, k: int): nat {
    if values == [] then 0
    else
      var v := values[|values| - 1];
      MovedTo(hs, fs, values[..|values| - 1], n, k) + if Slot(fs, v) < n && Moved(hs, fs, v) == k then 1 else 0
  }

  /** How many of `values` in the first `n` slots of `fs` move beyond the last of `len` slots. */
  function MovedOut(hs: Shape, fs: Shape, values: seq<nat>, n: int, len: nat): nat {
    if values == [] then 0
    else
      var v := values[|values| - 1];
      MovedOut(hs, fs, values[..|values| - 1], n, len) + if Slot(fs, v) < n && Moved(hs, fs, v) >= len then 1 else 0
  }

  /** All values of a slot have its lowest value in common. */
  lemma {:induction false} SameLowest(s: Shape, v: nat, k: nat)
    requires Slot(s, v) == k
    ensures Lowest(s, v) == ValueAt(s, k)
  {
    SlotsAreOnto(s, k);
    ClassContainsValue(s, v);
    SlotsAreClasses(s, v, ValueAt(s, k));
    SlotsAreClasses(s, ValueAt(s, k), Lowest(s, v));
  }

  lemma {:induction false} NextSlot(hs: Shape, fs: Shape, values: seq<nat>, n: nat, k: int, len: nat)
    ensures MovedTo(hs, fs, values, n + 1, k)
            == MovedTo(hs, fs, values, n, k)
               + if Slot(hs, ValueAt(fs, n)) == k then CountAt(fs, values, n) else 0
    ensures MovedOut(hs, fs, values, n + 1, len)
            == MovedOut(hs, fs, values, n, len)
               + if Slot(hs, ValueAt(fs, n)) >= len then CountAt(fs, values, n) else 0
    decreases |values|
  {
    if values != [] {
      var v := values[|values| - 1];
      NextSlot(hs, fs, values[..|values| - 1], n, k, len);
      if Slot(fs, v) == n {
        SameLowest(fs, v, n);
      }
    }
  }

  lemma {:induction false} NoSlots(hs: Shape, fs: Shape, values: seq<nat>, k: int, len: nat)
    ensures MovedTo(hs, fs, values, 0, k) == 0 && MovedOut(hs, fs, values, 0, len) == 0
    decreases |values|
  {
    if values != [] {
      NoSlots(hs, fs, values[..|values| - 1], k, len);
      SlotNonNegative(fs, values[|values| - 1]);
    }
  }

  lemma {:induction false} MergedSlots(hs: Shape, fs: Shape, hc: seq<int>, fc: seq<int>, values: seq<nat>, n: nat,
                                       k: nat)
    requires Holds(fs, fc, values) && n <= |fc| && k < |hc|
    ensures var m := MergeSlots(hc, fc, Targets(hs, fs, |fc|), n);
            && m.counts[k] == hc[k] + MovedTo(hs, fs, values, n, k)
            && m.dropped == MovedOut(hs, fs, values, n, |hc|)
    decreases n
  {
    if n == 0 {
      NoSlots(hs, fs, values, k, |hc|);
    } else {
      MergedSlots(hs, fs, hc, fc, values, n - 1, k);
      NextSlot(hs, fs, values, n - 1, k, |hc|);
    }
  }

  lemma {:induction false} AllSlots(hs: Shape, fs: Shape, values: seq<nat>, n: nat, k: int, len: nat)
    requires forall i :: 0 <= i < |values| ==> Slot(fs, values[i]) < n
    ensures MovedTo(hs, fs, values, n, k) == MovedCount(hs, fs, values, k)
    ensures MovedOut(hs, fs, values, n, len) == LostCount(hs, fs, values, len)
    decreases |values|
  {
    if values != [] {
      AllSlots(hs, fs, values[..|values| - 1], n, k, len);
    }
  }

  /** How many of `values` have the lowest value of their class in slot `k`. */
  function MovedCount(hs: Shape, fs: Shape, values: seq<nat>, k: int): nat {
    if values == [] then 0
    else MovedCount(hs, fs, values[..|values| - 1], k) + if Moved(hs, fs, values[|values| - 1]) == k then 1 else 0
  }

  function LostCount(hs: Shape, fs: Shape, values: seq<nat>, len: nat): nat {
    if values == [] then 0
    else LostCount(hs, fs, values[..|values| - 1], len) + if Moved(hs, fs, values[|values| - 1]) >= len then 1 else 0
  }

  /**
   Main result: whatever values were recorded in either histogram, and whatever their shapes, a
   merge counts each value of the one merged at the lowest value of its class, and drops exactly
   those whose lowest value cannot be recorded.
   */
  lemma {:induction false} MergeMoves(hs: Shape, fs: Shape, hc: seq<int>, fc: seq<int>, mine: seq<nat>,
                                      values: seq<nat>, k: nat)
    requires Holds(hs, hc, mine) && Holds(fs, fc, values) && k < |hc|
    ensures var m := MergeSlots(hc, fc, Targets(hs, fs, |fc|), |fc|);
            && m.counts[k] == CountAt(hs, mine, k) + MovedCount(hs, fs, values, k)
            && m.dropped == LostCount(hs, fs, values, |hc|)
  {
    MergedSlots(hs, fs, hc, fc, values, |fc|, k);
    AllSlots(hs, fs, values, |fc|, k, |hc|);
  }
}
