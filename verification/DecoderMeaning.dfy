/**
 What a node tree means: a relation between trees and values, and one between trees and
 errors, told by the shape of the tree alone.  Decoding gives the one value, or the one error,
 that they allow.
 */
module DecoderMeaning {
  import opened Wrappers
  import opened TreeBuilder
  import opened Decoder

  // ---------- values ----------

  /** `v` is the value of `n`; no more than `k` aliases are followed inside one another. */
  ghost predicate Means(n: Tree, v: Value, anchors: Anchors, k: nat)
    decreases k, v, n
  {
    match n.kind
    case DocumentNode => |n.children| == 1 && Means(n.children[0], v, anchors, k)
    case AliasNode => k > 0 && n.value in anchors && Means(anchors[n.value], v, anchors, k - 1)
    case ScalarNode => v == ScalarValue(n.tag, n.value, n.implicit)
    case SequenceNode =>
      v.ListValue? && ItemsMean(n.children, v.items, anchors, k)
    case MappingNode => v.MapValue? && PairsMean(n.children, v.entries, anchors, k)
  }

  ghost predicate ItemsMean(ns: seq<Tree>, vs: seq<Value>, anchors: Anchors, k: nat)
    decreases k, vs
  {
    |vs| == |ns| && forall i :: 0 <= i < |vs| ==> Means(ns[i], vs[i], anchors, k)
  }

  /** `v` is the value of `n`, however deep its aliases. */
  ghost predicate Meaning(n: Tree, v: Value, anchors: Anchors) { exists k :: Means(n, v, anchors, k) }

  /** Entry `i` comes from nodes `2 i` and `2 i + 1`. */
  ghost predicate PairsMean(ns: seq<Tree>, entries: seq<MapEntry>, anchors: Anchors, k: nat)
    decreases k, entries
  {
    && |ns| == 2 * |entries|
    && forall i :: 0 <= i < |entries| ==> EntryMeans(ns[2 * i], ns[2 * i + 1], entries[i], anchors, k)
  }

  /** A plain `<<`, or a key tagged as a merge. */
  ghost predicate MergeKey(n: Tree) {
    n.kind == ScalarNode && n.value == "<<" && (n.tag == "tag:yaml.org,2002:merge" || n.implicit)
  }

  /** A mapping, or an alias of one. */
  ghost predicate MapSource(n: Tree, anchors: Anchors) {
    || n.kind == MappingNode
    || (n.kind == AliasNode && (n.value in anchors ==> anchors[n.value].kind == MappingNode))
  }

  /** A key that is a scalar and its value; or what is merged, a mapping or a list of them, taken last to first. */
  ghost predicate EntryMeans(key: Tree, value: Tree, entry: MapEntry, anchors: Anchors, k: nat)
    decreases k, entry
  {
    if !MergeKey(key) then
      && entry.Pair? && entry.key.ScalarValue?
      && Means(key, entry.key, anchors, k) && Means(value, entry.value, anchors, k)
    else if value.kind == SequenceNode then
      entry.Merge? && SourcesMean(value.children, entry.sources, anchors, k)
    else
      && MapSource(value, anchors)
      && entry.Merge? && |entry.sources| == 1 && Means(value, entry.sources[0], anchors, k)
  }

  ghost predicate SourcesMean(ns: seq<Tree>, sources: seq<Value>, anchors: Anchors, k: nat)
    decreases k, sources
  {
    && |sources| == |ns|
    && forall i :: 0 <= i < |ns| ==> MapSource(ns[i], anchors) && Means(ns[i], sources[|ns| - 1 - i], anchors, k)
  }

  lemma {:induction false} MeansDecodes(n: Tree, v: Value, anchors: Anchors, k: nat)
    requires WellShaped(n) && AllWellShaped(anchors)
    ensures Means(n, v, anchors, k) <==> Decode(n, anchors, Fuel(k)) == Ok(v)
    decreases k, v, n
  {
    match n.kind
    case DocumentNode => MeansDecodes(n.children[0], v, anchors, k);
    case AliasNode =>
      if k > 0 && n.value in anchors {
        MeansDecodes(anchors[n.value], v, anchors, k - 1);
      }
    case ScalarNode =>
    case SequenceNode =>
      if v.ListValue? {
        ItemsDecode(n.children, v.items, anchors, k);
      }
    case MappingNode =>
      if v.MapValue? {
        PairsDecode(n.children, v.entries, anchors, k);
      }
  }

  lemma {:induction false} ItemsDecode(ns: seq<Tree>, vs: seq<Value>, anchors: Anchors, k: nat)
    requires (forall i :: 0 <= i < |ns| ==> WellShaped(ns[i])) && AllWellShaped(anchors)
    ensures ItemsMean(ns, vs, anchors, k) <==> DecodeItems(ns, anchors, Fuel(k)) == Ok(vs)
    decreases k, vs
  {
    if ns != [] && vs != [] {
      MeansDecodes(ns[0], vs[0], anchors, k);
      ItemsDecode(ns[1..], vs[1..], anchors, k);
      assert vs == [vs[0]] + vs[1..];
      ItemsMeanSplit(ns, vs, anchors, k);
    }
  }

  lemma {:induction false} ItemsMeanSplit(ns: seq<Tree>, vs: seq<Value>, anchors: Anchors, k: nat)
    requires ns != [] && vs != []
    ensures ItemsMean(ns, vs, anchors, k)
            <==> Means(ns[0], vs[0], anchors, k) && ItemsMean(ns[1..], vs[1..], anchors, k)
  {
    if Means(ns[0], vs[0], anchors, k) && ItemsMean(ns[1..], vs[1..], anchors, k) {
      forall i | 0 <= i < |vs| ensures Means(ns[i], vs[i], anchors, k) {
        if i > 0 {
          assert Means(ns[1..][i - 1], vs[1..][i - 1], anchors, k);
        }
      }
    }
  }

  lemma {:induction false} PairsDecode(ns: seq<Tree>, entries: seq<MapEntry>, anchors: Anchors, k: nat)
    requires |ns| % 2 == 0 && (forall i :: 0 <= i < |ns| ==> WellShaped(ns[i])) && AllWellShaped(anchors)
    ensures PairsMean(ns, entries, anchors, k) <==> DecodePairs(ns, anchors, Fuel(k)) == Ok(entries)
    decreases k, entries
  {
    if ns != [] && entries != [] {
      EntryDecodes(ns, entries[0], anchors, k);
      PairsDecode(ns[2..], entries[1..], anchors, k);
      PairsMeanSplit(ns, entries, anchors, k);
      assert entries == [entries[0]] + entries[1..];
    }
  }

  lemma {:induction false} PairsMeanSplit(ns: seq<Tree>, entries: seq<MapEntry>, anchors: Anchors, k: nat)
    requires |ns| >= 2 && entries != []
    ensures PairsMean(ns, entries, anchors, k)
            <==> EntryMeans(ns[0], ns[1], entries[0], anchors, k) && PairsMean(ns[2..], entries[1..], anchors, k)
  {
    if |ns| == 2 * |entries| {
      assert EntryMeans(ns[2 * 0], ns[2 * 0 + 1], entries[0], anchors, k)
             <==> EntryMeans(ns[0], ns[1], entries[0], anchors, k);
      forall i | 0 < i < |entries|
        ensures EntryMeans(ns[2 * i], ns[2 * i + 1], entries[i], anchors, k)
                <==> EntryMeans(ns[2..][2 * (i - 1)], ns[2..][2 * (i - 1) + 1], entries[1..][i - 1], anchors, k)
      {
      }
      if PairsMean(ns[2..], entries[1..], anchors, k) && EntryMeans(ns[0], ns[1], entries[0], anchors, k) {
        forall i | 0 <= i < |entries| ensures EntryMeans(ns[2 * i], ns[2 * i + 1], entries[i], anchors, k) {
          assert i > 0 ==> entries[i] == entries[1..][i - 1];
        }
      }
      if PairsMean(ns, entries, anchors, k) {
        forall i | 0 <= i < |entries[1..]|
          ensures EntryMeans(ns[2..][2 * i], ns[2..][2 * i + 1], entries[1..][i], anchors, k)
        {
          assert entries[i + 1] == entries[1..][i];
        }
      }
    }
  }

  lemma {:induction false} EntryDecodes(ns: seq<Tree>, entry: MapEntry, anchors: Anchors, k: nat)
    requires |ns| >= 2 && WellShaped(ns[0]) && WellShaped(ns[1]) && AllWellShaped(anchors)
    ensures EntryMeans(ns[0], ns[1], entry, anchors, k) <==> DecodePair(ns, anchors, Fuel(k)) == Ok(entry)
    decreases k, entry
  {
    if IsMerge(ns[0]) {
      if entry.Merge? {
        MergeDecodes(ns[1], entry.sources, anchors, k);
      }
    } else if entry.Pair? {
      MeansDecodes(ns[0], entry.key, anchors, k);
      MeansDecodes(ns[1], entry.value, anchors, k);
    }
  }

  lemma {:induction false} MergeDecodes(n: Tree, sources: seq<Value>, anchors: Anchors, k: nat)
    requires WellShaped(n) && AllWellShaped(anchors)
    ensures (if n.kind == SequenceNode then SourcesMean(n.children, sources, anchors, k)
             else MapSource(n, anchors) && |sources| == 1 && Means(n, sources[0], anchors, k))
            <==> DecodeMerge(n, anchors, Fuel(k)) == Ok(sources)
    decreases k, sources, 1
  {
    if n.kind == SequenceNode {
      SourcesDecode(n.children, sources, anchors, k);
    } else if |sources| == 1 {
      MeansDecodes(n, sources[0], anchors, k);
      assert sources == [sources[0]];
    }
  }

  lemma {:induction false} SourcesDecode(ns: seq<Tree>, sources: seq<Value>, anchors: Anchors, k: nat)
    requires (forall i :: 0 <= i < |ns| ==> WellShaped(ns[i])) && AllWellShaped(anchors)
    ensures SourcesMean(ns, sources, anchors, k) <==> DecodeSources(ns, anchors, Fuel(k)) == Ok(sources)
    decreases k, sources, 0
  {
    if ns != [] && sources != [] {
      var init, last := ns[..|ns| - 1], ns[|ns| - 1];
      MeansDecodes(last, sources[0], anchors, k);
      SourcesDecode(init, sources[1..], anchors, k);
      assert sources == [sources[0]] + sources[1..];
      SourcesMeanSplit(ns, sources, anchors, k);
    }
  }

  lemma {:induction false} SourcesMeanSplit(ns: seq<Tree>, sources: seq<Value>, anchors: Anchors, k: nat)
    requires ns != [] && sources != []
    ensures SourcesMean(ns, sources, anchors, k)
            <==> MapSource(ns[|ns| - 1], anchors) && Means(ns[|ns| - 1], sources[0], anchors, k)
                 && SourcesMean(ns[..|ns| - 1], sources[1..], anchors, k)
  {
    var init, rest, last := ns[..|ns| - 1], sources[1..], |ns| - 1;
    if SourcesMean(init, rest, anchors, k) && MapSource(ns[last], anchors) && Means(ns[last], sources[0], anchors, k) {
      forall i | 0 <= i < |ns| ensures MapSource(ns[i], anchors) && Means(ns[i], sources[last - i], anchors, k) {
        assert i < last ==> init[i] == ns[i];
      }
    }
    if SourcesMean(ns, sources, anchors, k) {
      forall i | 0 <= i < |init|
        ensures MapSource(init[i], anchors) && Means(init[i], rest[|init| - 1 - i], anchors, k)
      {
        assert init[i] == ns[i];
      }
    }
  }

  // ---------- errors ----------

  ghost predicate HasValue(n: Tree, anchors: Anchors, k: nat) { exists v :: Means(n, v, anchors, k) }

  ghost predicate PairHasValue(ns: seq<Tree>, anchors: Anchors, k: nat)
    requires |ns| >= 2
  {
    exists entry :: EntryMeans(ns[0], ns[1], entry, anchors, k)
  }

  /** `e` is what is first found wrong with `n`; a `Cycle` is an alias more than `k` deep. */
  ghost predicate Fails(n: Tree, e: DecodeError, anchors: Anchors, k: nat)
    decreases k, n, 0
  {
    match n.kind
    case DocumentNode => |n.children| == 1 && Fails(n.children[0], e, anchors, k)
    case AliasNode =>
      if n.value !in anchors then e == UnknownAnchor(n.value)
      else if k == 0 then e == Cycle else Fails(anchors[n.value], e, anchors, k - 1)
    case ScalarNode => false
    case SequenceNode => ItemsFail(n.children, e, anchors, k)
    case MappingNode => PairsFail(n.children, e, anchors, k)
  }

  ghost predicate ItemsFail(ns: seq<Tree>, e: DecodeError, anchors: Anchors, k: nat)
    decreases k, ns, 1
  {
    ns != [] && (Fails(ns[0], e, anchors, k) || (HasValue(ns[0], anchors, k) && ItemsFail(ns[1..], e, anchors, k)))
  }

  ghost predicate PairsFail(ns: seq<Tree>, e: DecodeError, anchors: Anchors, k: nat)
    decreases k, ns, 1
  {
    |ns| >= 2 && (PairFails(ns, e, anchors, k) || (PairHasValue(ns, anchors, k) && PairsFail(ns[2..], e, anchors, k)))
  }

  /** A key that fails, or is no scalar, or whose value fails; or a merge of something else than mappings. */
  ghost predicate PairFails(ns: seq<Tree>, e: DecodeError, anchors: Anchors, k: nat)
    requires |ns| >= 2
    decreases k, ns, 0
  {
    if !MergeKey(ns[0]) then
      || Fails(ns[0], e, anchors, k)
      || exists key :: Means(ns[0], key, anchors, k)
                       && if key.ScalarValue? then Fails(ns[1], e, anchors, k) else e == InvalidKey
    else if ns[1].kind == SequenceNode then SourcesFail(ns[1].children, e, anchors, k)
    else if MapSource(ns[1], anchors) then Fails(ns[1], e, anchors, k) else e == WantMap
  }

  ghost predicate SourcesFail(ns: seq<Tree>, e: DecodeError, anchors: Anchors, k: nat)
    decreases k, ns, 1
  {
    && ns != []
    && var last := ns[|ns| - 1];
       if !MapSource(last, anchors) then e == WantMap
       else Fails(last, e, anchors, k) || (HasValue(last, anchors, k) && SourcesFail(ns[..|ns| - 1], e, anchors, k))
  }

  lemma {:induction false} HasValueIff(n: Tree, anchors: Anchors, k: nat)
    requires WellShaped(n) && AllWellShaped(anchors)
    ensures HasValue(n, anchors, k) <==> Decode(n, anchors, Fuel(k)).Ok?
  {
    var d := Decode(n, anchors, Fuel(k));
    if d.Ok? {
      MeansDecodes(n, d.value, anchors, k);
    }
    if v :| Means(n, v, anchors, k) {
      MeansDecodes(n, v, anchors, k);
    }
  }

  lemma {:induction false} PairHasValueIff(ns: seq<Tree>, anchors: Anchors, k: nat)
    requires |ns| >= 2 && WellShaped(ns[0]) && WellShaped(ns[1]) && AllWellShaped(anchors)
    ensures PairHasValue(ns, anchors, k) <==> DecodePair(ns, anchors, Fuel(k)).Ok?
  {
    var d := DecodePair(ns, anchors, Fuel(k));
    if d.Ok? {
      EntryDecodes(ns, d.value, anchors, k);
    }
    if entry :| EntryMeans(ns[0], ns[1], entry, anchors, k) {
      EntryDecodes(ns, entry, anchors, k);
    }
  }

  lemma {:induction false} FailsDecodes(n: Tree, e: DecodeError, anchors: Anchors, k: nat)
    requires WellShaped(n) && AllWellShaped(anchors)
    ensures Fails(n, e, anchors, k) <==> Decode(n, anchors, Fuel(k)) == Err(e)
    decreases k, n, 0
  {
    match n.kind
    case DocumentNode => FailsDecodes(n.children[0], e, anchors, k);
    case AliasNode =>
      if k > 0 && n.value in anchors {
        FailsDecodes(anchors[n.value], e, anchors, k - 1);
      }
    case ScalarNode =>
    case SequenceNode => ItemsFailDecode(n.children, e, anchors, k);
    case MappingNode => PairsFailDecode(n.children, e, anchors, k);
  }

  lemma {:induction false} ItemsFailDecode(ns: seq<Tree>, e: DecodeError, anchors: Anchors, k: nat)
    requires (forall i :: 0 <= i < |ns| ==> WellShaped(ns[i])) && AllWellShaped(anchors)
    ensures ItemsFail(ns, e, anchors, k) <==> DecodeItems(ns, anchors, Fuel(k)) == Err(e)
    decreases k, ns, 1
  {
    if ns != [] {
      FailsDecodes(ns[0], e, anchors, k);
      HasValueIff(ns[0], anchors, k);
      ItemsFailDecode(ns[1..], e, anchors, k);
    }
  }

  lemma {:induction false} PairsFailDecode(ns: seq<Tree>, e: DecodeError, anchors: Anchors, k: nat)
    requires |ns| % 2 == 0 && (forall i :: 0 <= i < |ns| ==> WellShaped(ns[i])) && AllWellShaped(anchors)
    ensures PairsFail(ns, e, anchors, k) <==> DecodePairs(ns, anchors, Fuel(k)) == Err(e)
    decreases k, ns, 1
  {
    if ns != [] {
      PairFailsDecodes(ns, e, anchors, k);
      PairHasValueIff(ns, anchors, k);
      PairsFailDecode(ns[2..], e, anchors, k);
    }
  }

  lemma {:induction false} PairFailsDecodes(ns: seq<Tree>, e: DecodeError, anchors: Anchors, k: nat)
    requires |ns| >= 2 && WellShaped(ns[0]) && WellShaped(ns[1]) && AllWellShaped(anchors)
    ensures PairFails(ns, e, anchors, k) <==> DecodePair(ns, anchors, Fuel(k)) == Err(e)
    decreases k, ns, 0
  {
    FailsDecodes(ns[0], e, anchors, k);
    FailsDecodes(ns[1], e, anchors, k);
    if IsMerge(ns[0]) {
      if ns[1].kind == SequenceNode {
        SourcesFailDecode(ns[1].children, e, anchors, k);
      }
    } else {
      var key := Decode(ns[0], anchors, Fuel(k));
      if key.Ok? {
        MeansDecodes(ns[0], key.value, anchors, k);
      }
      forall v | Means(ns[0], v, anchors, k) ensures key == Ok(v) {
        MeansDecodes(ns[0], v, anchors, k);
      }
    }
  }

  lemma {:induction false} SourcesFailDecode(ns: seq<Tree>, e: DecodeError, anchors: Anchors, k: nat)
    requires (forall i :: 0 <= i < |ns| ==> WellShaped(ns[i])) && AllWellShaped(anchors)
    ensures SourcesFail(ns, e, anchors, k) <==> DecodeSources(ns, anchors, Fuel(k)) == Err(e)
    decreases k, ns, 1
  {
    if ns != [] {
      var last := ns[|ns| - 1];
      FailsDecodes(last, e, anchors, k);
      HasValueIff(last, anchors, k);
      SourcesFailDecode(ns[..|ns| - 1], e, anchors, k);
    }
  }

  // ---------- main results ----------

  lemma {:induction false} ValueIsMeaning(n: Tree, v: Value, anchors: Anchors)
    requires WellShaped(n) && AllWellShaped(anchors)
    ensures Decode(n, anchors, Active({})) == Ok(v) <==> Meaning(n, v, anchors)
  {
    CycleCheckIsExact(n, anchors);
    MeansDecodes(n, v, anchors, |anchors|);
    if Meaning(n, v, anchors) {
      var k :| Means(n, v, anchors, k);
      MeansDecodes(n, v, anchors, k);
      DecodeSimulates(n, anchors, Fuel(k), Active({}));
    }
  }

  /**
   Decoding is exact.  It gives `v` if and only if that is what the tree means, however deep its
   aliases; it gives an error if and only if that is the first thing wrong, where a cycle is a
   nesting of more aliases than there are anchors.
   */
  lemma {:induction false} DecodeIsMeaning(n: Tree, anchors: Anchors)
    requires WellShaped(n) && AllWellShaped(anchors)
    ensures forall v :: Decode(n, anchors, Active({})) == Ok(v) <==> Meaning(n, v, anchors)
    ensures forall e :: Decode(n, anchors, Active({})) == Err(e) <==> Fails(n, e, anchors, |anchors|)
  {
    CycleCheckIsExact(n, anchors);
    forall v ensures Decode(n, anchors, Active({})) == Ok(v) <==> Meaning(n, v, anchors) {
      ValueIsMeaning(n, v, anchors);
    }
    forall e ensures Decode(n, anchors, Active({})) == Err(e) <==> Fails(n, e, anchors, |anchors|) {
      FailsDecodes(n, e, anchors, |anchors|);
    }
  }

  // ---------- trees without aliases and merges ----------

  /** Made by the builder from scalars and collections alone: no alias, no merge, keys that are scalars. */
  ghost predicate PlainTree(n: Tree)
    decreases n
  {
    match n.kind
    case ScalarNode => n == Tree(ScalarNode, n.tag, n.value, n.implicit, [])
    case SequenceNode =>
      n == Collection(SequenceNode, n.children) && forall i :: 0 <= i < |n.children| ==> PlainTree(n.children[i])
    case MappingNode =>
      && n == Collection(MappingNode, n.children) && |n.children| % 2 == 0
      && (forall i :: 0 <= i < |n.children| ==> PlainTree(n.children[i]))
      && forall i :: 0 <= i < |n.children| && i % 2 == 0 ==>
           n.children[i].kind == ScalarNode && !MergeKey(n.children[i])
    case _ => false
  }

  /** The tree a value was decoded from, if it has no merges. */
  function Rebuilt(v: Value): Tree
    decreases v
  {
    match v
    case ScalarValue(tag, text, implicit) => Tree(ScalarNode, tag, text, implicit, [])
    case ListValue(items) => Collection(SequenceNode, RebuiltItems(items))
    case MapValue(entries) => Collection(MappingNode, RebuiltEntries(entries))
  }

  function RebuiltItems(vs: seq<Value>): seq<Tree>
    decreases vs
  {
    if vs == [] then [] else [Rebuilt(vs[0])] + RebuiltItems(vs[1..])
  }

  function RebuiltEntries(entries: seq<MapEntry>): seq<Tree>
    decreases entries
  {
    if entries == [] then []
    else RebuiltEntry(entries[0]) + RebuiltEntries(entries[1..])
  }

  function RebuiltEntry(entry: MapEntry): seq<Tree>
    decreases entry
  {
    match entry
    case Pair(key, value) => [Rebuilt(key), Rebuilt(value)]
    case Merge(_) => []
  }

  /** Nothing is lost in decoding such a tree. */
  lemma {:induction false} PlainRoundTrip(n: Tree, anchors: Anchors, g: Guard)
    requires PlainTree(n) && WellShaped(n) && AllWellShaped(anchors)
    ensures Decode(n, anchors, g).Ok? && Rebuilt(Decode(n, anchors, g).value) == n
    decreases n, 0
  {
    match n.kind
    case ScalarNode =>
    case SequenceNode => ItemsRoundTrip(n.children, anchors, g);
    case MappingNode => PairsRoundTrip(n.children, anchors, g);
  }

  lemma {:induction false} ItemsRoundTrip(ns: seq<Tree>, anchors: Anchors, g: Guard)
    requires (forall i :: 0 <= i < |ns| ==> PlainTree(ns[i]) && WellShaped(ns[i])) && AllWellShaped(anchors)
    ensures DecodeItems(ns, anchors, g).Ok? && RebuiltItems(DecodeItems(ns, anchors, g).value) == ns
    decreases ns, 1
  {
    if ns != [] {
      PlainRoundTrip(ns[0], anchors, g);
      ItemsRoundTrip(ns[1..], anchors, g);
      assert ns == [ns[0]] + ns[1..];
    }
  }

  lemma {:induction false} PairsRoundTrip(ns: seq<Tree>, anchors: Anchors, g: Guard)
    requires |ns| % 2 == 0 && (forall i :: 0 <= i < |ns| ==> PlainTree(ns[i]) && WellShaped(ns[i]))
    requires forall i :: 0 <= i < |ns| && i % 2 == 0 ==> ns[i].kind == ScalarNode && !MergeKey(ns[i])
    requires AllWellShaped(anchors)
    ensures DecodePairs(ns, anchors, g).Ok? && RebuiltEntries(DecodePairs(ns, anchors, g).value) == ns
    decreases ns, 1
  {
    if ns != [] {
      assert ns[0].kind == ScalarNode && !MergeKey(ns[0]);
      PlainRoundTrip(ns[0], anchors, g);
      PlainRoundTrip(ns[1], anchors, g);
      PairsRoundTrip(ns[2..], anchors, g);
      assert ns == [ns[0], ns[1]] + ns[2..];
    }
  }
}
