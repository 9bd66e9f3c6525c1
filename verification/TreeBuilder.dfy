/**
 Building the node tree from events (decode.go).  The recursive descent is given as a
 function on the events still to come and as the object with its current event; on every
 prefix of an event word it never panics, and the tree flattens back to the events consumed.
 */
module TreeBuilder {
  import opened Wrappers
  import opened G = EventGrammar

  datatype Kind = DocumentNode | MappingNode | SequenceNode | ScalarNode | AliasNode

  datatype Tree = Tree(kind: Kind, tag: string, value: string, implicit: bool, children: seq<Tree>)

  /** `Starved`: the parser had no further event; `Panicked`: an event the builder cannot place. */
  datatype Built<T> = Built(value: T, rest: seq<Event>) | Starved | Panicked

  function AliasTree(e: Event): Tree
    requires e.Alias?
  {
    Tree(AliasNode, "", e.name, false, [])
  }

  function ScalarTree(e: Event): Tree
    requires e.Scalar?
  {
    Tree(ScalarNode, e.tag, e.value, e.implicit, [])
  }

  function Collection(kind: Kind, children: seq<Tree>): Tree { Tree(kind, "", "", false, children) }

  /** `skip` after the head of `w`: the next event, if the parser has one. */
  function SkipTo<T>(value: T, w: seq<Event>): Built<T>
    requires w != []
  {
    if |w| == 1 then Starved else Built(value, w[1..])
  }

  function Parse(w: seq<Event>): (b: Built<Tree>)
    requires w != []
    ensures b.Built? ==> 0 < |b.rest| < |w|
    decreases |w|, 1
  {
    match w[0]
    case Scalar(_, _, _, _, _, _) => SkipTo(ScalarTree(w[0]), w)
    case Alias(_) => SkipTo(AliasTree(w[0]), w)
    case MappingStart(_, _, _, _) =>
      if |w| == 1 then Starved
      else (match ParsePairs(w[1..], [])
            case Built(children, rest) => SkipTo(Collection(MappingNode, children), rest)
            case Starved => Starved
            case Panicked => Panicked)
    case SequenceStart(_, _, _, _) =>
      if |w| == 1 then Starved
      else (match ParseItems(w[1..], [])
            case Built(children, rest) => SkipTo(Collection(SequenceNode, children), rest)
            case Starved => Starved
            case Panicked => Panicked)
    case DocumentStart(_, _, _) =>
      if |w| == 1 then Starved
      else (match Parse(w[1..])
            case Built(root, rest) =>
              if rest[0].DocumentEnd? then SkipTo(Collection(DocumentNode, [root]), rest) else Panicked
            case Starved => Starved
            case Panicked => Panicked)
    case _ => Panicked
  }

  function ParseItems(w: seq<Event>, sofar: seq<Tree>): (b: Built<seq<Tree>>)
    requires w != []
    ensures b.Built? ==> 0 < |b.rest| <= |w|
    decreases |w|, 2
  {
    if w[0].SequenceEnd? then Built(sofar, w)
    else match Parse(w)
      case Built(t, rest) => ParseItems(rest, sofar + [t])
      case Starved => Starved
      case Panicked => Panicked
  }

  function ParsePairs(w: seq<Event>, sofar: seq<Tree>): (b: Built<seq<Tree>>)
    requires w != []
    ensures b.Built? ==> 0 < |b.rest| <= |w|
    decreases |w|, 2
  {
    if w[0].MappingEnd? then Built(sofar, w)
    else match Parse(w)
      case Starved => Starved
      case Panicked => Panicked
      case Built(key, mid) =>
        match Parse(mid)
        case Built(value, rest) => ParsePairs(rest, sofar + [key, value])
        case Starved => Starved
        case Panicked => Panicked
  }

  // ---------- what a tree remembers of its events ----------

  function Erase(e: Event): Event {
    match e
    case Scalar(_, tag, value, implicit, _, _) => Scalar(None, tag, value, implicit, false, AnyScalar)
    case SequenceStart(_, _, _, _) => SequenceStart(None, "", true, AnyStyle)
    case MappingStart(_, _, _, _) => MappingStart(None, "", true, AnyStyle)
    case DocumentStart(_, _, _) => DocumentStart(false, [], true)
    case DocumentEnd(_) => DocumentEnd(true)
    case _ => e
  }

  function EraseAll(w: seq<Event>): seq<Event> {
    if w == [] then [] else [Erase(w[0])] + EraseAll(w[1..])
  }

  function Skeleton(t: Tree): seq<Event>
    decreases t, 0
  {
    match t.kind
    case AliasNode => [Alias(t.value)]
    case ScalarNode => [Scalar(None, t.tag, t.value, t.implicit, false, AnyScalar)]
    case SequenceNode => [SequenceStart(None, "", true, AnyStyle)] + SkeletonAll(t.children) + [SequenceEnd]
    case MappingNode => [MappingStart(None, "", true, AnyStyle)] + SkeletonAll(t.children) + [MappingEnd]
    case DocumentNode => [DocumentStart(false, [], true)] + SkeletonAll(t.children) + [DocumentEnd(true)]
  }

  function SkeletonAll(ts: seq<Tree>): seq<Event>
    decreases ts, 1
  {
    if ts == [] then [] else Skeleton(ts[0]) + SkeletonAll(ts[1..])
  }

  ghost predicate WellShaped(t: Tree)
    decreases t
  {
    && (t.kind.MappingNode? ==> |t.children| % 2 == 0)
    && (t.kind.DocumentNode? ==> |t.children| == 1)
    && forall i :: 0 <= i < |t.children| ==> WellShaped(t.children[i])
  }

  // ---------- building inverts flattening ----------

  function TreeOf(n: Node): Tree
    requires ValidNode(n)
    decreases n
  {
    match n
    case Leaf(e) => if e.Alias? then AliasTree(e) else ScalarTree(e)
    case Branch(open, items) =>
      Collection(if open.SequenceStart? then SequenceNode else MappingNode, TreesOf(items))
  }

  function TreesOf(items: seq<Node>): (ts: seq<Tree>)
    requires forall i :: 0 <= i < |items| ==> ValidNode(items[i])
    ensures |ts| == |items|
    decreases items
  {
    if items == [] then [] else [TreeOf(items[0])] + TreesOf(items[1..])
  }

  lemma {:induction false} EraseAppend(u: seq<Event>, w: seq<Event>)
    ensures EraseAll(u + w) == EraseAll(u) + EraseAll(w)
  {
    if u == [] {
      assert u + w == w;
    } else {
      assert (u + w)[1..] == u[1..] + w;
      EraseAppend(u[1..], w);
    }
  }

  lemma {:induction false} ParseInvertsFlatten(n: Node, rest: seq<Event>)
    requires ValidNode(n) && rest != []
    ensures Parse(Flatten(n) + rest) == Built(TreeOf(n), rest)
    decreases n, 0
  {
    match n
    case Leaf(e) =>
      assert ([e] + rest)[1..] == rest;
    case Branch(open, items) =>
      var w := Flatten(n) + rest;
      var close := [Closer(open)] + rest;
      assert w[1..] == FlattenAll(items) + close;
      assert close[1..] == rest;
      assert [] + TreesOf(items) == TreesOf(items);
      if open.SequenceStart? {
        ItemsInvert(items, [], close);
      } else {
        PairsInvert(items, [], close);
      }
  }

  lemma {:induction false} StartsWithNode(n: Node)
    requires ValidNode(n)
    ensures Flatten(n) != [] && !Flatten(n)[0].SequenceEnd? && !Flatten(n)[0].MappingEnd?
  {
  }

  lemma {:induction false} ItemsInvert(items: seq<Node>, sofar: seq<Tree>, close: seq<Event>)
    requires forall i :: 0 <= i < |items| ==> ValidNode(items[i])
    requires close != [] && close[0].SequenceEnd?
    ensures ParseItems(FlattenAll(items) + close, sofar) == Built(sofar + TreesOf(items), close)
    decreases items, 1
  {
    if items == [] {
      assert [] + close == close;
      assert sofar + [] == sofar;
    } else {
      var more := FlattenAll(items[1..]) + close;
      Regroup(Flatten(items[0]), FlattenAll(items[1..]), close);
      StartsWithNode(items[0]);
      ParseInvertsFlatten(items[0], more);
      ItemUnfolds(FlattenAll(items) + close, sofar, TreeOf(items[0]), more);
      ItemsInvert(items[1..], sofar + [TreeOf(items[0])], close);
      Regroup(sofar, [TreeOf(items[0])], TreesOf(items[1..]));
    }
  }

  lemma {:induction false} ItemUnfolds(w: seq<Event>, sofar: seq<Tree>, t: Tree, rest: seq<Event>)
    requires w != [] && !w[0].SequenceEnd? && Parse(w) == Built(t, rest)
    ensures rest != [] && ParseItems(w, sofar) == ParseItems(rest, sofar + [t])
  {
  }

  lemma {:induction false} PairsInvert(items: seq<Node>, sofar: seq<Tree>, close: seq<Event>)
    requires |items| % 2 == 0 && forall i :: 0 <= i < |items| ==> ValidNode(items[i])
    requires close != [] && close[0].MappingEnd?
    ensures ParsePairs(FlattenAll(items) + close, sofar) == Built(sofar + TreesOf(items), close)
    decreases items, 1
  {
    if items == [] {
      assert [] + close == close;
      assert sofar + [] == sofar;
    } else {
      var a, b := items[0], items[1];
      var more := FlattenAll(items[2..]) + close;
      var mid := Flatten(b) + more;
      var w := Flatten(a) + mid;
      ParseInvertsFlatten(a, mid);
      ParseInvertsFlatten(b, more);
      StartsWithNode(a);
      PairUnfolds(w, sofar, TreeOf(a), mid, TreeOf(b), more);
      PairsInvert(items[2..], sofar + [TreeOf(a), TreeOf(b)], close);
      FlattenPair(items, close);
      Regroup(sofar, [TreeOf(a), TreeOf(b)], TreesOf(items[2..]));
    }
  }

  lemma Regroup<T>(a: seq<T>, b: seq<T>, c: seq<T>)
    ensures a + b + c == a + (b + c)
  {
  }

  lemma {:induction false} PairUnfolds(w: seq<Event>, sofar: seq<Tree>, key: Tree, mid: seq<Event>, value: Tree,
                                       rest: seq<Event>)
    requires w != [] && !w[0].MappingEnd? && Parse(w) == Built(key, mid)
    requires mid != [] && Parse(mid) == Built(value, rest)
    ensures rest != [] && ParsePairs(w, sofar) == ParsePairs(rest, sofar + [key, value])
  {
  }

  lemma {:induction false} FlattenPair(items: seq<Node>, close: seq<Event>)
    requires |items| >= 2 && forall i :: 0 <= i < |items| ==> ValidNode(items[i])
    ensures FlattenAll(items) + close == Flatten(items[0]) + (Flatten(items[1]) + (FlattenAll(items[2..]) + close))
    ensures TreesOf(items) == [TreeOf(items[0]), TreeOf(items[1])] + TreesOf(items[2..])
  {
    assert items[1..][1..] == items[2..];
    assert FlattenAll(items[1..]) == Flatten(items[1]) + FlattenAll(items[2..]);
    assert TreesOf(items[1..]) == [TreeOf(items[1])] + TreesOf(items[2..]);
  }

  lemma {:induction false} TreeKeepsEvents(n: Node)
    requires ValidNode(n)
    ensures WellShaped(TreeOf(n)) && Skeleton(TreeOf(n)) == EraseAll(Flatten(n))
    decreases n, 0
  {
    match n
    case Leaf(e) =>
      assert EraseAll([e]) == [Erase(e)] + EraseAll([]);
    case Branch(open, items) =>
      TreesKeepEvents(items);
      EraseBetween(open, FlattenAll(items), Closer(open));
  }

  lemma {:induction false} EraseBetween(first: Event, w: seq<Event>, last: Event)
    ensures EraseAll([first] + w + [last]) == [Erase(first)] + EraseAll(w) + [Erase(last)]
  {
    EraseAppend([first] + w, [last]);
    EraseAppend([first], w);
    assert EraseAll([first]) == [Erase(first)] + EraseAll([]);
    assert EraseAll([last]) == [Erase(last)] + EraseAll([]);
  }

  lemma {:induction false} TreesKeepEvents(items: seq<Node>)
    requires forall i :: 0 <= i < |items| ==> ValidNode(items[i])
    ensures forall i :: 0 <= i < |items| ==> WellShaped(TreesOf(items)[i])
    ensures SkeletonAll(TreesOf(items)) == EraseAll(FlattenAll(items))
    decreases items, 1
  {
    if items != [] {
      TreeKeepsEvents(items[0]);
      TreesKeepEvents(items[1..]);
      EraseAppend(Flatten(items[0]), FlattenAll(items[1..]));
      assert TreesOf(items)[1..] == TreesOf(items[1..]);
      assert forall i :: 1 <= i < |items| ==> TreesOf(items)[i] == TreesOf(items[1..])[i - 1];
    }
  }

  /** A document of a word, whatever follows it, comes back as one document tree. */
  lemma {:induction false} DocumentInverts(d: Document, rest: seq<Event>)
    requires ValidDocument(d) && rest != []
    ensures Parse(FlattenDocument(d) + rest) == Built(Collection(DocumentNode, [TreeOf(d.root)]), rest)
    ensures WellShaped(TreeOf(d.root))
    ensures Skeleton(Collection(DocumentNode, [TreeOf(d.root)])) == EraseAll(FlattenDocument(d))
  {
    var w := FlattenDocument(d) + rest;
    var after := [d.end] + rest;
    assert w[1..] == Flatten(d.root) + after;
    assert after[1..] == rest;
    ParseInvertsFlatten(d.root, after);
    TreeKeepsEvents(d.root);
    EraseBetween(d.start, Flatten(d.root), d.end);
    var t := TreeOf(d.root);
    assert [t][1..] == [];
    assert SkeletonAll([t]) == Skeleton(t) + SkeletonAll([]);
  }

  // ---------- prefixes of words: no panic ----------

  /**
   On events that the grammar allows next, `Parse` either runs out of events or returns a
   tree for exactly the node it consumed.
   */
  lemma {:induction false} ParseNeverPanics(w: seq<Event>, slots: seq<Slot>)
    requires w != [] && Run(Expect(slots), w).Some? && !w[0].SequenceEnd? && !w[0].MappingEnd?
    ensures match Parse(w)
            case Panicked => false
            case Starved => true
            case Built(t, rest) => Run(AfterNode(slots), rest) == Run(Expect(slots), w)
    decreases |w|, 1
  {
    match w[0]
    case SequenceStart(_, _, _, _) =>
      if |w| > 1 {
        ItemsNeverPanic(w[1..], slots, []);
        match ParseItems(w[1..], []) {
          case Built(_, rest) => CloseInnermost(slots);
          case _ =>
        }
      }
    case MappingStart(_, _, _, _) =>
      if |w| > 1 {
        PairsNeverPanic(w[1..], slots, []);
        match ParsePairs(w[1..], []) {
          case Built(_, rest) => CloseInnermost(slots);
          case _ =>
        }
      }
    case _ =>
  }

  lemma {:induction false} AfterItem(slots: seq<Slot>)
    ensures AfterNode(slots + [Item]) == Expect(slots + [Item])
    ensures AfterNode(slots + [Key]) == Expect(slots + [Value])
    ensures AfterNode(slots + [Value]) == Expect(slots + [Key])
  {
    assert (slots + [Item])[..|slots|] == slots;
    assert (slots + [Key])[..|slots|] == slots;
    assert (slots + [Value])[..|slots|] == slots;
  }

  lemma {:induction false} ItemsNeverPanic(w: seq<Event>, slots: seq<Slot>, sofar: seq<Tree>)
    requires w != [] && Run(Expect(slots + [Item]), w).Some?
    ensures match ParseItems(w, sofar)
            case Panicked => false
            case Starved => true
            case Built(ts, rest) =>
              rest[0].SequenceEnd? && Run(Expect(slots + [Item]), rest) == Run(Expect(slots + [Item]), w)
    decreases |w|, 2
  {
    if !w[0].SequenceEnd? {
      ParseNeverPanics(w, slots + [Item]);
      AfterItem(slots);
      match Parse(w) {
        case Built(t, rest) => ItemsNeverPanic(rest, slots, sofar + [t]);
        case _ =>
      }
    }
  }

  lemma {:induction false} PairsNeverPanic(w: seq<Event>, slots: seq<Slot>, sofar: seq<Tree>)
    requires w != [] && Run(Expect(slots + [Key]), w).Some?
    ensures match ParsePairs(w, sofar)
            case Panicked => false
            case Starved => true
            case Built(ts, rest) =>
              rest[0].MappingEnd? && Run(Expect(slots + [Key]), rest) == Run(Expect(slots + [Key]), w)
    decreases |w|, 2
  {
    if !w[0].MappingEnd? {
      ParseNeverPanics(w, slots + [Key]);
      AfterItem(slots);
      match Parse(w) {
        case Built(key, mid) =>
          ParseNeverPanics(mid, slots + [Value]);
          match Parse(mid) {
            case Built(value, rest) => PairsNeverPanic(rest, slots, sofar + [key, value]);
            case _ =>
          }
        case _ =>
      }
    }
  }

  /** At a document start, on any events the grammar allows, the builder cannot panic. */
  lemma {:induction false} DocumentNeverPanics(w: seq<Event>)
    requires w != [] && w[0].DocumentStart? && Run(Between, w).Some?
    ensures Parse(w) != Panicked
  {
    if |w| > 1 {
      ParseNeverPanics(w[1..], []);
    }
  }

  // ---------- anchors ----------

  function AnchorOf(e: Event): Option<string> {
    if e.Scalar? || e.SequenceStart? || e.MappingStart? then e.anchor else None
  }

  /**
   The anchor table after reading events `lo` up to `hi`: a document starts an empty one, and
   the last node to carry a name owns it.
   */
  function Anchored(table: map<string, nat>, events: seq<Event>, lo: nat, hi: nat): map<string, nat>
    requires lo <= hi <= |events|
    decreases hi
  {
    if lo == hi then table
    else if events[hi - 1].DocumentStart? then map[]
    else
      var before := Anchored(table, events, lo, hi - 1);
      match AnchorOf(events[hi - 1]) case None => before case Some(name) => before[name := hi - 1]
  }

  lemma {:induction false} AnchoredSplit(table: map<string, nat>, events: seq<Event>, a: nat, b: nat, c: nat)
    requires a <= b <= c <= |events|
    ensures Anchored(Anchored(table, events, a, b), events, b, c) == Anchored(table, events, a, c)
    decreases c
  {
    if b < c {
      AnchoredSplit(table, events, a, b, c - 1);
    }
  }

  /** A document knows none of the anchors of the documents before it. */
  lemma {:induction false} AnchorsStartAfresh(table: map<string, nat>, events: seq<Event>, lo: nat, hi: nat,
                                               name: string)
    requires lo <= hi <= |events| && name in Anchored(table, events, lo, hi)
    requires exists i :: lo <= i < hi && events[i].DocumentStart?
    ensures var k := Anchored(table, events, lo, hi)[name];
            lo <= k < hi && AnchorOf(events[k]) == Some(name) && forall i :: k < i < hi ==> !events[i].DocumentStart?
    decreases hi
  {
    if !events[hi - 1].DocumentStart? {
      var i :| lo <= i < hi && events[i].DocumentStart?;
      assert i < hi - 1;
      if name in Anchored(table, events, lo, hi - 1) && AnchorOf(events[hi - 1]) != Some(name) {
        AnchorsStartAfresh(table, events, lo, hi - 1, name);
      }
    }
  }

  /** Looking a name up finds the most recent node that carries it. */
  lemma {:induction false} AnchoredIsLatest(table: map<string, nat>, events: seq<Event>, lo: nat, hi: nat, name: string)
    requires lo <= hi <= |events| && forall i :: lo <= i < hi ==> !events[i].DocumentStart?
    ensures var t := Anchored(table, events, lo, hi);
            if exists i :: lo <= i < hi && AnchorOf(events[i]) == Some(name)
            then name in t && lo <= t[name] < hi && AnchorOf(events[t[name]]) == Some(name)
                 && forall i :: t[name] < i < hi ==> AnchorOf(events[i]) != Some(name)
            else (name in t <==> name in table) && (name in t ==> t[name] == table[name])
    decreases hi
  {
    if lo < hi {
      AnchoredIsLatest(table, events, lo, hi - 1, name);
    }
  }

  // ---------- the object ----------

  /** The builder with its current event `events[pos]`; a node is identified by its first event. */
  class Builder {
    const events: seq<Event>
    var pos: nat
    var anchors: map<string, nat>

    ghost predicate Valid()
      reads this
    {
      pos < |events|
    }

    constructor (events: seq<Event>)
      requires events != []
      ensures Valid() && this.events == events && pos == 0
    {
      this.events := events;
      pos, anchors := 0, map[];
    }

    /** What is left, and the anchors met, once `b` has been built from position `from`. */
    ghost predicate Reached<T>(b: Built<T>, from: nat, table: map<string, nat>, ok: bool)
      reads this
    {
      match b
      case Built(_, rest) =>
        && ok && Valid() && from <= pos && rest == events[pos..]
        && anchors == Anchored(table, events, from, pos)
      case Starved => !ok
      case Panicked => false
    }

    /** Move to the next event; `false` when the parser has none. */
    method Skip() returns (ok: bool)
      requires Valid()
      modifies this`pos
      ensures ok <==> old(pos) + 1 < |events|
      ensures ok ==> Valid() && pos == old(pos) + 1
      ensures !ok ==> pos == old(pos)
    {
      ok := pos + 1 < |events|;
      if ok {
        pos := pos + 1;
      }
    }

    method Anchor(name: Option<string>)
      requires Valid()
      modifies this`anchors
      ensures anchors == match name case None => old(anchors) case Some(n) => old(anchors)[n := pos]
    {
      if name.Some? {
        anchors := anchors[name.value := pos];
      }
    }

    method ParseOne() returns (ok: bool, t: Tree)
      requires Valid() && Parse(events[pos..]) != Panicked
      modifies this
      ensures Reached(Parse(old(events[pos..])), old(pos), old(anchors), ok)
      ensures ok ==> t == Parse(old(events[pos..])).value
      decreases |events| - pos, 1
    {
      t := Collection(ScalarNode, []);
      var e := events[pos];
      match e {
        case Scalar(_, _, _, _, _, _) =>
          t := ScalarTree(e);
          Anchor(e.anchor);
          ok := Skip();
        case Alias(_) =>
          t := AliasTree(e);
          ok := Skip();
        case MappingStart(_, _, _, _) => ok, t := ParseMapping();
        case SequenceStart(_, _, _, _) => ok, t := ParseSequence();
        case DocumentStart(_, _, _) => ok, t := ParseDocument();
      }
    }

    method ParseDocument() returns (ok: bool, t: Tree)
      requires Valid() && events[pos].DocumentStart? && Parse(events[pos..]) != Panicked
      modifies this
      ensures Reached(Parse(old(events[pos..])), old(pos), old(anchors), ok)
      ensures ok ==> t == Parse(old(events[pos..])).value
      decreases |events| - pos, 0
    {
      ghost var from, table := pos, anchors;
      t := Collection(DocumentNode, []);
      anchors := map[];
      ok := Skip();
      if !ok { return; }
      assert events[from..][1..] == events[pos..];
      ghost var mid := pos;
      var child;
      ok, child := ParseOne();
      if !ok { return; }
      AnchoredSplit(table, events, from, mid, pos);
      t := t.(children := t.children + [child]);
      assert events[pos].DocumentEnd?;
      assert events[pos..][1..] == events[pos + 1..];
      ok := Skip();
    }

    method ParseSequence() returns (ok: bool, t: Tree)
      requires Valid() && events[pos].SequenceStart? && Parse(events[pos..]) != Panicked
      modifies this
      ensures Reached(Parse(old(events[pos..])), old(pos), old(anchors), ok)
      ensures ok ==> t == Parse(old(events[pos..])).value
      decreases |events| - pos, 0
    {
      ghost var from, table := pos, anchors;
      t := Collection(SequenceNode, []);
      Anchor(events[pos].anchor);
      ok := Skip();
      if !ok { return; }
      assert events[from..][1..] == events[pos..];
      ghost var goal := ParseItems(events[pos..], []);
      while !events[pos].SequenceEnd?
        invariant Valid() && ok && from < pos && t.kind == SequenceNode && t == Collection(SequenceNode, t.children)
        invariant goal == ParseItems(events[pos..], t.children)
        invariant anchors == Anchored(table, events, from, pos)
        decreases |events| - pos
      {
        var child;
        ghost var mid := pos;
        ok, child := ParseOne();
        if !ok { return; }
        AnchoredSplit(table, events, from, mid, pos);
        t := t.(children := t.children + [child]);
      }
      assert events[pos..][1..] == events[pos + 1..];
      ok := Skip();
    }

    /** A key and its value; `from` is where the mapping began. */
    method ParsePair(ghost from: nat, ghost table: map<string, nat>, sofar: seq<Tree>)
      returns (ok: bool, children: seq<Tree>)
      requires Valid() && !events[pos].MappingEnd? && ParsePairs(events[pos..], sofar) != Panicked
      requires from <= pos && anchors == Anchored(table, events, from, pos)
      modifies this
      ensures ok ==> Valid() && old(pos) < pos && anchors == Anchored(table, events, from, pos)
      ensures ParsePairs(old(events[pos..]), sofar) == if ok then ParsePairs(events[pos..], children) else Starved
      decreases |events| - pos, 2
    {
      ghost var mid := pos;
      var key, value;
      children := sofar;
      ok, key := ParseOne();
      if !ok { return; }
      AnchoredSplit(table, events, from, mid, pos);
      mid := pos;
      ok, value := ParseOne();
      if !ok { return; }
      AnchoredSplit(table, events, from, mid, pos);
      children := sofar + [key, value];
    }

    method ParseMapping() returns (ok: bool, t: Tree)
      requires Valid() && events[pos].MappingStart? && Parse(events[pos..]) != Panicked
      modifies this
      ensures Reached(Parse(old(events[pos..])), old(pos), old(anchors), ok)
      ensures ok ==> t == Parse(old(events[pos..])).value
      decreases |events| - pos, 0
    {
      ghost var from, table := pos, anchors;
      t := Collection(MappingNode, []);
      Anchor(events[pos].anchor);
      ok := Skip();
      if !ok { return; }
      assert events[from..][1..] == events[pos..];
      ghost var goal := ParsePairs(events[pos..], []);
      while !events[pos].MappingEnd?
        invariant Valid() && ok && from < pos && t == Collection(MappingNode, t.children)
        invariant goal == ParsePairs(events[pos..], t.children)
        invariant anchors == Anchored(table, events, from, pos)
        decreases |events| - pos
      {
        var children;
        ok, children := ParsePair(from, table, t.children);
        if !ok { return; }
        t := t.(children := children);
      }
      assert events[pos..][1..] == events[pos + 1..];
      ok := Skip();
    }
  }
}
