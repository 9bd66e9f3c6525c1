/**
 Decoding a node tree with aliases (decode.go).  The traversal is defined once, for two ways
 of following an alias: the source's set of anchors being expanded, and a plain unfolding
 with a bound on how deeply aliases are followed.  The source's cycle check is exact: it
 fires precisely on the trees whose unfolding never ends, and otherwise decoding gives the
 unfolded value.
 */
module Decoder {
  import opened Wrappers
  import opened TreeBuilder

  datatype Value =
    | ScalarValue(tag: string, text: string, implicit: bool)
    | ListValue(items: seq<Value>)
    | MapValue(entries: seq<MapEntry>)

  /** A decoded pair, or the mappings merged by a `<<` key in the order they are applied. */
  datatype MapEntry = Pair(key: Value, value: Value) | Merge(sources: seq<Value>)

  datatype DecodeError = UnknownAnchor(name: string) | Cycle | WantMap | InvalidKey

  /** `Active`: anchors now being expanded.  `Fuel`: how many more aliases may be followed. */
  datatype Guard = Active(names: set<string>) | Fuel(left: nat)

  type Anchors = map<string, Tree>

  ghost predicate AllWellShaped(anchors: Anchors) {
    forall name :: name in anchors ==> WellShaped(anchors[name])
  }

  function Follow(g: Guard, name: string): Option<Guard> {
    match g
    case Active(names) => if name in names then None else Some(Active(names + {name}))
    case Fuel(left) => if left == 0 then None else Some(Fuel(left - 1))
  }

  /** Aliases that can still be followed; bounds the recursion. */
  function Budget(anchors: Anchors, g: Guard): nat {
    match g
    case Active(names) => |anchors.Keys - names|
    case Fuel(left) => left
  }

  lemma {:induction false} FollowSpends(anchors: Anchors, g: Guard, name: string)
    requires name in anchors
    ensures Follow(g, name).Some? ==> Budget(anchors, Follow(g, name).value) < Budget(anchors, g)
  {
    if g.Active? && name !in g.names {
      assert anchors.Keys - (g.names + {name}) == (anchors.Keys - g.names) - {name};
    }
  }

  predicate IsMerge(n: Tree) {
    n.kind.ScalarNode? && n.value == "<<" && (n.implicit || n.tag == "tag:yaml.org,2002:merge")
  }

  function Decode(n: Tree, anchors: Anchors, g: Guard): Result<Value, DecodeError>
    requires WellShaped(n) && AllWellShaped(anchors)
    decreases Budget(anchors, g), n, 0
  {
    match n.kind
    case DocumentNode => Decode(n.children[0], anchors, g)
    case AliasNode =>
      if n.value !in anchors then Err(UnknownAnchor(n.value))
      else (match Follow(g, n.value)
            case None => Err(Cycle)
            case Some(h) => FollowSpends(anchors, g, n.value); Decode(anchors[n.value], anchors, h))
    case ScalarNode => Ok(ScalarValue(n.tag, n.value, n.implicit))
    case SequenceNode =>
      (match DecodeItems(n.children, anchors, g) case Ok(items) => Ok(ListValue(items)) case Err(e) => Err(e))
    case MappingNode =>
      (match DecodePairs(n.children, anchors, g) case Ok(entries) => Ok(MapValue(entries)) case Err(e) => Err(e))
  }

  function DecodeItems(ns: seq<Tree>, anchors: Anchors, g: Guard): Result<seq<Value>, DecodeError>
    requires (forall i :: 0 <= i < |ns| ==> WellShaped(ns[i])) && AllWellShaped(anchors)
    decreases Budget(anchors, g), ns, 1
  {
    if ns == [] then Ok([])
    else match Decode(ns[0], anchors, g)
      case Err(e) => Err(e)
      case Ok(v) =>
        match DecodeItems(ns[1..], anchors, g) case Err(e) => Err(e) case Ok(vs) => Ok([v] + vs)
  }

  function DecodePairs(ns: seq<Tree>, anchors: Anchors, g: Guard): Result<seq<MapEntry>, DecodeError>
    requires |ns| % 2 == 0 && (forall i :: 0 <= i < |ns| ==> WellShaped(ns[i])) && AllWellShaped(anchors)
    decreases Budget(anchors, g), ns, 1
  {
    if ns == [] then Ok([])
    else match DecodePair(ns, anchors, g)
      case Err(e) => Err(e)
      case Ok(entry) =>
        match DecodePairs(ns[2..], anchors, g) case Err(e) => Err(e) case Ok(rest) => Ok([entry] + rest)
  }

  /** The first key and value of `ns`. */
  function DecodePair(ns: seq<Tree>, anchors: Anchors, g: Guard): Result<MapEntry, DecodeError>
    requires |ns| >= 2 && WellShaped(ns[0]) && WellShaped(ns[1]) && AllWellShaped(anchors)
    decreases Budget(anchors, g), ns, 0
  {
    if IsMerge(ns[0]) then
      match DecodeMerge(ns[1], anchors, g) case Err(e) => Err(e) case Ok(sources) => Ok(Merge(sources))
    else match Decode(ns[0], anchors, g)
      case Err(e) => Err(e)
      case Ok(key) =>
        if !key.ScalarValue? then Err(InvalidKey)
        else match Decode(ns[1], anchors, g) case Err(e) => Err(e) case Ok(value) => Ok(Pair(key, value))
  }

  /** Only a mapping, or an alias of one (or of nothing known), may be merged. */
  predicate Mergeable(n: Tree, anchors: Anchors) {
    n.kind.MappingNode? || (n.kind.AliasNode? && (n.value in anchors ==> anchors[n.value].kind.MappingNode?))
  }

  function DecodeMerge(n: Tree, anchors: Anchors, g: Guard): Result<seq<Value>, DecodeError>
    requires WellShaped(n) && AllWellShaped(anchors)
    decreases Budget(anchors, g), n, 1
  {
    if n.kind.SequenceNode? then DecodeSources(n.children, anchors, g)
    else if !Mergeable(n, anchors) then Err(WantMap)
    else match Decode(n, anchors, g) case Err(e) => Err(e) case Ok(v) => Ok([v])
  }

  /** The sources of a merge list, last one first. */
  function DecodeSources(ns: seq<Tree>, anchors: Anchors, g: Guard): Result<seq<Value>, DecodeError>
    requires (forall i :: 0 <= i < |ns| ==> WellShaped(ns[i])) && AllWellShaped(anchors)
    decreases Budget(anchors, g), ns, 1
  {
    if ns == [] then Ok([])
    else
      var last := ns[|ns| - 1];
      if !Mergeable(last, anchors) then Err(WantMap)
      else match Decode(last, anchors, g)
        case Err(e) => Err(e)
        case Ok(v) =>
          match DecodeSources(ns[..|ns| - 1], anchors, g) case Err(e) => Err(e) case Ok(vs) => Ok([v] + vs)
  }

  // ---------- one guard simulates another ----------

  /** Guard `h` lets through whatever `g` lets through. */
  ghost predicate Covers(anchors: Anchors, h: Guard, g: Guard)
    requires AllWellShaped(anchors)
  {
    match (h, g)
    case (Fuel(a), Fuel(b)) => a >= b
    case (Fuel(a), Active(names)) => a >= |anchors.Keys - names|
    case (Active(names), Fuel(b)) =>
      forall name :: name in names && name in anchors && b > 0 ==>
        Decode(anchors[name], anchors, Fuel(b - 1)) == Err(Cycle)
    case (Active(a), Active(b)) => a == b
  }

  ghost predicate Same<T(!new)>(g: Result<T, DecodeError>, h: Result<T, DecodeError>) {
    g != Err(Cycle) ==> h == g
  }

  lemma {:induction false} DecodeSimulates(n: Tree, anchors: Anchors, g: Guard, h: Guard)
    requires WellShaped(n) && AllWellShaped(anchors) && Covers(anchors, h, g)
    ensures Same(Decode(n, anchors, g), Decode(n, anchors, h))
    decreases Budget(anchors, g), n, 2
  {
    match n.kind
    case DocumentNode => DecodeSimulates(n.children[0], anchors, g, h);
    case AliasNode =>
      if n.value in anchors && Follow(g, n.value).Some? && Decode(n, anchors, g) != Err(Cycle) {
        AliasSimulates(n, anchors, g, h);
      }
    case ScalarNode =>
    case SequenceNode => ItemsSimulate(n.children, anchors, g, h);
    case MappingNode => PairsSimulate(n.children, anchors, g, h);
  }

  /** Following the alias `n`, which `g` permits. */
  lemma {:induction false} AliasSimulates(n: Tree, anchors: Anchors, g: Guard, h: Guard)
    requires AllWellShaped(anchors) && Covers(anchors, h, g) && n.value in anchors
    requires Follow(g, n.value).Some? && Decode(anchors[n.value], anchors, Follow(g, n.value).value) != Err(Cycle)
    ensures Follow(h, n.value).Some?
    ensures Decode(anchors[n.value], anchors, Follow(h, n.value).value)
            == Decode(anchors[n.value], anchors, Follow(g, n.value).value)
    decreases Budget(anchors, g), n, 1
  {
    FollowSpends(anchors, g, n.value);
    if h.Active? && g.Fuel? {
      ActiveFollowsFuel(n, anchors, g.left, h.names);
    } else {
      if h.Fuel? && g.Active? {
        assert anchors.Keys - (g.names + {n.value}) == (anchors.Keys - g.names) - {n.value};
      }
      DecodeSimulates(anchors[n.value], anchors, Follow(g, n.value).value, Follow(h, n.value).value);
    }
  }

  /** An anchor that unfolds with less than `b` fuel cannot be one of those that need more. */
  lemma {:induction false} ActiveFollowsFuel(n: Tree, anchors: Anchors, b: nat, names: set<string>)
    requires AllWellShaped(anchors) && Covers(anchors, Active(names), Fuel(b)) && n.value in anchors
    requires b > 0 && Decode(anchors[n.value], anchors, Fuel(b - 1)) != Err(Cycle)
    ensures n.value !in names
    ensures Decode(anchors[n.value], anchors, Active(names + {n.value}))
            == Decode(anchors[n.value], anchors, Fuel(b - 1))
    decreases b, n, 0
  {
    var an := anchors[n.value];
    var least := LeastFuel(an, anchors, b - 1);
    DecodeSimulates(an, anchors, Fuel(least), Fuel(b - 1));
    forall other | other in names && other in anchors && least > 0
      ensures Decode(anchors[other], anchors, Fuel(least - 1)) == Err(Cycle)
    {
      DecodeSimulates(anchors[other], anchors, Fuel(least - 1), Fuel(b - 1));
    }
    DecodeSimulates(an, anchors, Fuel(least), Active(names + {n.value}));
  }

  /** The smallest fuel, at most `k`, with which `n` unfolds. */
  lemma {:induction false} LeastFuel(n: Tree, anchors: Anchors, k: nat) returns (least: nat)
    requires WellShaped(n) && AllWellShaped(anchors) && Decode(n, anchors, Fuel(k)) != Err(Cycle)
    ensures least <= k && Decode(n, anchors, Fuel(least)) != Err(Cycle)
    ensures least > 0 ==> Decode(n, anchors, Fuel(least - 1)) == Err(Cycle)
  {
    least := k;
    while least > 0 && Decode(n, anchors, Fuel(least - 1)) != Err(Cycle)
      invariant least <= k && Decode(n, anchors, Fuel(least)) != Err(Cycle)
    {
      least := least - 1;
    }
  }

  lemma {:induction false} ItemsSimulate(ns: seq<Tree>, anchors: Anchors, g: Guard, h: Guard)
    requires (forall i :: 0 <= i < |ns| ==> WellShaped(ns[i])) && AllWellShaped(anchors) && Covers(anchors, h, g)
    ensures Same(DecodeItems(ns, anchors, g), DecodeItems(ns, anchors, h))
    decreases Budget(anchors, g), ns, 1
  {
    if ns != [] {
      DecodeSimulates(ns[0], anchors, g, h);
      ItemsSimulate(ns[1..], anchors, g, h);
    }
  }

  lemma {:induction false} PairsSimulate(ns: seq<Tree>, anchors: Anchors, g: Guard, h: Guard)
    requires |ns| % 2 == 0 && (forall i :: 0 <= i < |ns| ==> WellShaped(ns[i])) && AllWellShaped(anchors)
    requires Covers(anchors, h, g)
    ensures Same(DecodePairs(ns, anchors, g), DecodePairs(ns, anchors, h))
    decreases Budget(anchors, g), ns, 1
  {
    if ns != [] {
      PairSimulates(ns, anchors, g, h);
      PairsSimulate(ns[2..], anchors, g, h);
    }
  }

  lemma {:induction false} PairSimulates(ns: seq<Tree>, anchors: Anchors, g: Guard, h: Guard)
    requires |ns| >= 2 && WellShaped(ns[0]) && WellShaped(ns[1]) && AllWellShaped(anchors) && Covers(anchors, h, g)
    ensures Same(DecodePair(ns, anchors, g), DecodePair(ns, anchors, h))
    decreases Budget(anchors, g), ns, 0
  {
    if IsMerge(ns[0]) {
      MergeSimulates(ns[1], anchors, g, h);
    } else {
      DecodeSimulates(ns[0], anchors, g, h);
      DecodeSimulates(ns[1], anchors, g, h);
    }
  }

  lemma {:induction false} MergeSimulates(n: Tree, anchors: Anchors, g: Guard, h: Guard)
    requires WellShaped(n) && AllWellShaped(anchors) && Covers(anchors, h, g)
    ensures Same(DecodeMerge(n, anchors, g), DecodeMerge(n, anchors, h))
    decreases Budget(anchors, g), n, 3
  {
    if n.kind.SequenceNode? {
      SourcesSimulate(n.children, anchors, g, h);
    } else {
      DecodeSimulates(n, anchors, g, h);
    }
  }

  lemma {:induction false} SourcesSimulate(ns: seq<Tree>, anchors: Anchors, g: Guard, h: Guard)
    requires (forall i :: 0 <= i < |ns| ==> WellShaped(ns[i])) && AllWellShaped(anchors) && Covers(anchors, h, g)
    ensures Same(DecodeSources(ns, anchors, g), DecodeSources(ns, anchors, h))
    decreases Budget(anchors, g), ns, 1
  {
    if ns != [] {
      DecodeSimulates(ns[|ns| - 1], anchors, g, h);
      SourcesSimulate(ns[..|ns| - 1], anchors, g, h);
    }
  }

  /**
   Main result: the source's cycle check rejects exactly the trees whose aliases unfold
   forever; on all others it decodes what following at most as many nested aliases as there
   are anchors decodes.
   */
  lemma {:induction false} CycleCheckIsExact(n: Tree, anchors: Anchors)
    requires WellShaped(n) && AllWellShaped(anchors)
    ensures Decode(n, anchors, Active({})) == Err(Cycle)
            <==> forall k: nat :: Decode(n, anchors, Fuel(k)) == Err(Cycle)
    ensures Decode(n, anchors, Active({})) == Decode(n, anchors, Fuel(|anchors|))
  {
    assert anchors.Keys - {} == anchors.Keys;
    DecodeSimulates(n, anchors, Active({}), Fuel(|anchors|));
    forall k: nat
      ensures Same(Decode(n, anchors, Fuel(k)), Decode(n, anchors, Active({})))
    {
      DecodeSimulates(n, anchors, Fuel(k), Active({}));
    }
  }

  // ---------- the object ----------

  class TreeDecoder {
    const anchors: Anchors
    var aliases: set<string>

    constructor (anchors: Anchors)
      ensures this.anchors == anchors && aliases == {}
    {
      this.anchors := anchors;
      aliases := {};
    }

    /** The result is the specified one, and a normal return restores the active aliases. */
    ghost predicate Did<T>(expected: Result<T, DecodeError>, r: Result<T, DecodeError>, before: set<string>)
      reads this
    {
      r == expected && (r.Ok? ==> aliases == before)
    }

    method Unmarshal(n: Tree) returns (r: Result<Value, DecodeError>)
      requires WellShaped(n) && AllWellShaped(anchors)
      modifies this
      ensures Did(Decode(n, anchors, Active(old(aliases))), r, old(aliases))
      decreases Budget(anchors, Active(aliases)), n, 1
    {
      match n.kind {
        case DocumentNode => r := Unmarshal(n.children[0]);
        case AliasNode => r := UnmarshalAlias(n);
        case ScalarNode => r := Ok(ScalarValue(n.tag, n.value, n.implicit));
        case SequenceNode =>
          var s := UnmarshalItems(n.children);
          r := match s case Ok(items) => Ok(ListValue(items)) case Err(e) => Err(e);
        case MappingNode =>
          var m := UnmarshalPairs(n.children);
          r := match m case Ok(entries) => Ok(MapValue(entries)) case Err(e) => Err(e);
      }
    }

    method UnmarshalAlias(n: Tree) returns (r: Result<Value, DecodeError>)
      requires n.kind.AliasNode? && WellShaped(n) && AllWellShaped(anchors)
      modifies this
      ensures Did(Decode(n, anchors, Active(old(aliases))), r, old(aliases))
      decreases Budget(anchors, Active(aliases)), n, 0
    {
      if n.value !in anchors { return Err(UnknownAnchor(n.value)); }
      if n.value in aliases { return Err(Cycle); }
      FollowSpends(anchors, Active(aliases), n.value);
      aliases := aliases + {n.value};
      r := Unmarshal(anchors[n.value]);
      aliases := aliases - {n.value};
    }

    method UnmarshalItems(ns: seq<Tree>) returns (r: Result<seq<Value>, DecodeError>)
      requires (forall i :: 0 <= i < |ns| ==> WellShaped(ns[i])) && AllWellShaped(anchors)
      modifies this
      ensures Did(DecodeItems(ns, anchors, Active(old(aliases))), r, old(aliases))
      decreases Budget(anchors, Active(aliases)), ns, 1
    {
      ghost var active := aliases;
      var out: seq<Value> := [];
      var i := 0;
      assert ns[0..] == ns;
      AppendedNothing(DecodeItems(ns, anchors, Active(active)));
      while i < |ns|
        invariant i <= |ns| && aliases == active
        invariant DecodeItems(ns, anchors, Active(active))
                  == Appended(out, DecodeItems(ns[i..], anchors, Active(active)))
      {
        assert ns[i..][1..] == ns[i + 1..];
        var v := Unmarshal(ns[i]);
        if v.Err? { return Err(v.error); }
        AppendedOne(out, v.value, DecodeItems(ns[i + 1..], anchors, Active(active)));
        out := out + [v.value];
        i := i + 1;
      }
      assert ns[i..] == [] && out + [] == out;
      r := Ok(out);
    }

    method UnmarshalPairs(ns: seq<Tree>) returns (r: Result<seq<MapEntry>, DecodeError>)
      requires |ns| % 2 == 0 && (forall i :: 0 <= i < |ns| ==> WellShaped(ns[i])) && AllWellShaped(anchors)
      modifies this
      ensures Did(DecodePairs(ns, anchors, Active(old(aliases))), r, old(aliases))
      decreases Budget(anchors, Active(aliases)), ns, 1
    {
      ghost var active := aliases;
      var out: seq<MapEntry> := [];
      var i := 0;
      assert ns[0..] == ns;
      AppendedNothing(DecodePairs(ns, anchors, Active(active)));
      while i < |ns|
        invariant i <= |ns| && i % 2 == 0 && aliases == active
        invariant DecodePairs(ns, anchors, Active(active))
                  == Appended(out, DecodePairs(ns[i..], anchors, Active(active)))
      {
        EvenSteps(|ns|, i);
        PairsUnroll(ns, anchors, Active(active), i);
        assert |ns[i..]| == |ns| - i && |ns[i + 2..]| == |ns| - (i + 2);
        var e := UnmarshalPair(ns[i..], ns);
        if e.Err? { return Err(e.error); }
        AppendedOne(out, e.value, DecodePairs(ns[i + 2..], anchors, Active(active)));
        out := out + [e.value];
        i := i + 2;
      }
      assert ns[i..] == [] && out + [] == out;
      r := Ok(out);
    }

    method UnmarshalPair(ns: seq<Tree>, ghost of: seq<Tree>) returns (r: Result<MapEntry, DecodeError>)
      requires |ns| >= 2 && ns[0] in of && ns[1] in of
      requires WellShaped(ns[0]) && WellShaped(ns[1]) && AllWellShaped(anchors)
      modifies this
      ensures Did(DecodePair(ns, anchors, Active(old(aliases))), r, old(aliases))
      decreases Budget(anchors, Active(aliases)), of, 0
    {
      if IsMerge(ns[0]) {
        var sources := UnmarshalMerge(ns[1]);
        return match sources case Err(e) => Err(e) case Ok(vs) => Ok(Merge(vs));
      }
      var key := Unmarshal(ns[0]);
      if key.Err? { return Err(key.error); }
      if !key.value.ScalarValue? { return Err(InvalidKey); }
      var value := Unmarshal(ns[1]);
      return match value case Err(e) => Err(e) case Ok(x) => Ok(Pair(key.value, x));
    }

    method UnmarshalMerge(n: Tree) returns (r: Result<seq<Value>, DecodeError>)
      requires WellShaped(n) && AllWellShaped(anchors)
      modifies this
      ensures Did(DecodeMerge(n, anchors, Active(old(aliases))), r, old(aliases))
      decreases Budget(anchors, Active(aliases)), n, 2
    {
      if n.kind.SequenceNode? {
        r := UnmarshalSources(n.children);
        return;
      }
      if !Mergeable(n, anchors) { return Err(WantMap); }
      var v := Unmarshal(n);
      return match v case Err(e) => Err(e) case Ok(x) => Ok([x]);
    }

    /** Merge sources are taken from the last to the first. */
    method UnmarshalSources(ns: seq<Tree>) returns (r: Result<seq<Value>, DecodeError>)
      requires (forall i :: 0 <= i < |ns| ==> WellShaped(ns[i])) && AllWellShaped(anchors)
      modifies this
      ensures Did(DecodeSources(ns, anchors, Active(old(aliases))), r, old(aliases))
      decreases Budget(anchors, Active(aliases)), ns, 1
    {
      ghost var active := aliases;
      var out: seq<Value> := [];
      var i := |ns|;
      assert ns[..i] == ns;
      AppendedNothing(DecodeSources(ns, anchors, Active(active)));
      while i > 0
        invariant i <= |ns| && aliases == active
        invariant DecodeSources(ns, anchors, Active(active))
                  == Appended(out, DecodeSources(ns[..i], anchors, Active(active)))
      {
        assert ns[..i][..i - 1] == ns[..i - 1];
        i := i - 1;
        if !Mergeable(ns[i], anchors) { return Err(WantMap); }
        var v := Unmarshal(ns[i]);
        if v.Err? { return Err(v.error); }
        AppendedOne(out, v.value, DecodeSources(ns[..i], anchors, Active(active)));
        out := out + [v.value];
      }
      assert ns[..0] == [] && out + [] == out;
      return Ok(out);
    }
  }

  /** What a loop has collected so far, followed by what is still to come. */
  function Appended<T>(sofar: seq<T>, rest: Result<seq<T>, DecodeError>): Result<seq<T>, DecodeError> {
    match rest case Err(e) => Err(e) case Ok(more) => Ok(sofar + more)
  }

  lemma {:induction false} EvenSteps(n: nat, i: nat)
    requires n % 2 == 0 && i % 2 == 0 && i < n
    ensures i + 2 <= n && (i + 2) % 2 == 0 && (n - i) % 2 == 0 && (n - (i + 2)) % 2 == 0
  {
  }

  lemma {:induction false} PairsUnroll(ns: seq<Tree>, anchors: Anchors, g: Guard, i: nat)
    requires |ns| % 2 == 0 && (forall k :: 0 <= k < |ns| ==> WellShaped(ns[k])) && AllWellShaped(anchors)
    requires i + 2 <= |ns| && (|ns| - i) % 2 == 0 && (|ns| - (i + 2)) % 2 == 0
    ensures WellShaped(ns[i..][0]) && WellShaped(ns[i..][1])
    ensures DecodePairs(ns[i..], anchors, g) ==
              match DecodePair(ns[i..], anchors, g)
              case Err(e) => Err(e)
              case Ok(x) => Appended([x], DecodePairs(ns[i + 2..], anchors, g))
  {
    assert ns[i..][2..] == ns[i + 2..];
  }

  lemma AppendedNothing<T>(rest: Result<seq<T>, DecodeError>)
    ensures Appended([], rest) == rest
  {
    if rest.Ok? {
      assert [] + rest.value == rest.value;
    }
  }

  lemma AppendedOne<T>(sofar: seq<T>, x: T, rest: Result<seq<T>, DecodeError>)
    ensures Appended(sofar, Appended([x], rest)) == Appended(sofar + [x], rest)
  {
    if rest.Ok? {
      assert sofar + ([x] + rest.value) == sofar + [x] + rest.value;
    }
  }
}
