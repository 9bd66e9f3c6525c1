/** From any tokens to events, and from there to the emitter, or to a tree and its decoded value. */
module Pipeline {
  import opened Wrappers
  import opened EventGrammar
  import P = ParserSpec
  import ParserSound
  import E = EmitterSpec
  import EmitterSound
  import T = TreeBuilder
  import D = Decoder
  import M = DecoderMeaning

  /** What the parser can say, up to the end of the stream, the emitter takes, and writes to the end. */
  lemma {:induction false} ParsedEventsEmit(tokens: seq<P.Token>, events: seq<Event>, q: P.PState, c: E.Plan)
    requires P.Reaches(P.Initial(tokens), events, q) && q.state == P.SEnd && EmitterSound.ContentsOk(c, events)
    ensures E.EmitAll(c, E.Initial(), [], 0, events) == E.Drained(E.EState(E.EEnd, [], 0, -1, []), [], |events|)
  {
    ParserSound.ParserSpeaksGrammar(tokens, events, q);
    EmitterSound.EmitterAcceptsWords(c, events);
  }

  /** The first document of a parsed stream becomes a tree that holds exactly that document's events. */
  lemma {:induction false} ParsedEventsBuild(tokens: seq<P.Token>, events: seq<Event>, q: P.PState)
    returns (docs: seq<Document>)
    requires P.Reaches(P.Initial(tokens), events, q) && q.state == P.SEnd
    ensures ValidDocuments(docs) && events == Word(docs)
    ensures docs != [] ==>
              var rest := FlattenDocuments(docs[1..]) + [StreamEnd];
              var tree := T.Collection(T.DocumentNode, [T.TreeOf(docs[0].root)]);
              && T.Parse(events[1..]) == T.Built(tree, rest)
              && T.Skeleton(tree) == T.EraseAll(FlattenDocument(docs[0])) && T.WellShaped(T.TreeOf(docs[0].root))
  {
    ParserSound.ParserSpeaksGrammar(tokens, events, q);
    var ds :| ValidDocuments(ds) && events == Word(ds);
    docs := ds;
    if docs != [] {
      var rest := FlattenDocuments(docs[1..]) + [StreamEnd];
      assert events[1..] == FlattenDocument(docs[0]) + rest;
      T.DocumentInverts(docs[0], rest);
    }
  }

  /**
   Even when the parser stops in an error, building the tree of what it said never reaches the
   unknown-event panic.
   */
  lemma {:induction false} BrokenStreamsNeverPanic(tokens: seq<P.Token>, events: seq<Event>, q: P.PState)
    requires P.Reaches(P.Initial(tokens), events, q) && |events| > 1 && events[1].DocumentStart?
    ensures T.Parse(events[1..]) != T.Panicked
  {
    ParserSound.ParserSpeaksGrammar(tokens, events, q);
    AutomatonIsGrammar(events);
    assert Run(Start, events).Some?;
    assert events[0].StreamStart?;
    T.DocumentNeverPanics(events[1..]);
  }

  // ---------- decoding a parsed document ----------

  /** Inside an opened collection, position `i` is position `i - 1` of its members. */
  lemma {:induction false} BranchFrom(open: Event, inner: seq<Event>, close: Event, rest: seq<Event>, i: nat)
    requires 0 < i <= |inner| + 1
    ensures ([open] + inner + [close] + rest)[i..] == (inner + ([close] + rest))[i - 1..]
    ensures i <= |inner| ==> ([open] + inner + [close])[i] == inner[i - 1]
  {
  }

  /** The node whose first event is at position `i` of the events of `n`, and what follows that node. */
  lemma {:induction false} SubnodeAt(n: Node, rest: seq<Event>, i: nat) returns (m: Node, r: seq<Event>)
    requires ValidNode(n) && rest != [] && i < |Flatten(n)| && T.AnchorOf(Flatten(n)[i]).Some?
    ensures ValidNode(m) && r != [] && (Flatten(n) + rest)[i..] == Flatten(m) + r
    decreases n, 0
  {
    if i == 0 {
      m, r := n, rest;
    } else {
      match n
      case Branch(open, items) =>
        BranchFrom(open, FlattenAll(items), Closer(open), rest, i);
        m, r := SubnodeAmong(items, [Closer(open)] + rest, i - 1);
    }
  }

  lemma {:induction false} SubnodeAmong(items: seq<Node>, rest: seq<Event>, i: nat) returns (m: Node, r: seq<Event>)
    requires rest != [] && i < |FlattenAll(items)| && T.AnchorOf(FlattenAll(items)[i]).Some?
    requires forall j :: 0 <= j < |items| ==> ValidNode(items[j])
    ensures ValidNode(m) && r != [] && (FlattenAll(items) + rest)[i..] == Flatten(m) + r
    decreases items, 1
  {
    var first, more := Flatten(items[0]), FlattenAll(items[1..]) + rest;
    assert FlattenAll(items) + rest == first + more;
    if i < |first| {
      m, r := SubnodeAt(items[0], more, i);
    } else {
      m, r := SubnodeAmong(items[1..], rest, i - |first|);
      assert (first + more)[i..] == more[i - |first|..];
    }
  }

  lemma {:induction false} NodeStaysInside(n: Node)
    requires ValidNode(n)
    ensures forall e :: e in Flatten(n) ==> !e.DocumentStart?
    decreases n, 0
  {
    match n
    case Leaf(_) =>
    case Branch(open, items) => NodesStayInside(items);
  }

  lemma {:induction false} NodesStayInside(items: seq<Node>)
    requires forall i :: 0 <= i < |items| ==> ValidNode(items[i])
    ensures forall e :: e in FlattenAll(items) ==> !e.DocumentStart?
    decreases items, 1
  {
    if items != [] {
      NodeStaysInside(items[0]);
      NodesStayInside(items[1..]);
    }
  }

  /** Every anchor in the table stands at the first event of a node of its own. */
  ghost predicate NamesNodes(table: map<string, nat>, events: seq<Event>) {
    forall name :: name in table ==>
      && table[name] < |events| && T.AnchorOf(events[table[name]]) == Some(name)
      && T.Parse(events[table[name]..]).Built? && T.WellShaped(T.Parse(events[table[name]..]).value)
  }

  /** The nodes the names of the table stand for. */
  ghost function AnchorTrees(table: map<string, nat>, events: seq<Event>): (anchors: D.Anchors)
    requires NamesNodes(table, events)
    ensures D.AllWellShaped(anchors)
  {
    map name | name in table :: T.Parse(events[table[name]..]).value
  }

  lemma {:induction false} DocumentAnchors(d: Document, rest: seq<Event>, before: map<string, nat>)
    requires ValidDocument(d) && rest != []
    ensures var w := FlattenDocument(d) + rest;
            NamesNodes(T.Anchored(before, w, 0, |FlattenDocument(d)|), w)
  {
    var w, hi := FlattenDocument(d) + rest, |FlattenDocument(d)|;
    T.AnchoredSplit(before, w, 0, 1, hi);
    var table := T.Anchored(map[], w, 1, hi);
    NodeStaysInside(d.root);
    assert forall i :: 1 <= i < hi - 1 ==> w[i] == Flatten(d.root)[i - 1] && w[i] in Flatten(d.root);
    forall name | name in table
      ensures table[name] < |w| && T.AnchorOf(w[table[name]]) == Some(name)
      ensures T.Parse(w[table[name]..]).Built? && T.WellShaped(T.Parse(w[table[name]..]).value)
    {
      T.AnchoredIsLatest(map[], w, 1, hi, name);
      AnchoredNode(d, rest, table[name]);
    }
  }

  lemma {:induction false} AnchoredNode(d: Document, rest: seq<Event>, i: nat)
    requires ValidDocument(d) && rest != [] && 1 <= i < |FlattenDocument(d)|
    requires T.AnchorOf((FlattenDocument(d) + rest)[i]).Some?
    ensures var b := T.Parse((FlattenDocument(d) + rest)[i..]); b.Built? && T.WellShaped(b.value)
  {
    var root := Flatten(d.root);
    Inside(d.start, root, d.end, rest, i);
    SubnodeBuilt(d.root, [d.end] + rest, i - 1);
  }

  /** Positions inside a document, and the same positions inside its root node. */
  lemma {:induction false} Inside(start: Event, root: seq<Event>, end: Event, rest: seq<Event>, i: nat)
    requires 1 <= i <= |root| + 1 && end.DocumentEnd?
    requires T.AnchorOf(([start] + root + [end] + rest)[i]).Some?
    ensures i - 1 < |root| && root[i - 1] == ([start] + root + [end] + rest)[i]
    ensures ([start] + root + [end] + rest)[i..] == (root + ([end] + rest))[i - 1..]
  {
  }

  lemma {:induction false} SubnodeBuilt(n: Node, rest: seq<Event>, i: nat)
    requires ValidNode(n) && rest != [] && i < |Flatten(n)| && T.AnchorOf(Flatten(n)[i]).Some?
    ensures var b := T.Parse((Flatten(n) + rest)[i..]); b.Built? && T.WellShaped(b.value)
  {
    var m, r := SubnodeAt(n, rest, i);
    T.ParseInvertsFlatten(m, r);
    T.TreeKeepsEvents(m);
  }

  /** Decoding `tree` ends, gives what it means, and finds a cycle exactly if its aliases unfold forever. */
  ghost predicate DecodesExactly(tree: T.Tree, anchors: D.Anchors)
    requires T.WellShaped(tree) && D.AllWellShaped(anchors)
  {
    && (forall v :: D.Decode(tree, anchors, D.Active({})) == Ok(v) <==> M.Meaning(tree, v, anchors))
    && (D.Decode(tree, anchors, D.Active({})) == Err(D.Cycle)
        <==> forall k: nat :: D.Decode(tree, anchors, D.Fuel(k)) == Err(D.Cycle))
    && D.Decode(tree, anchors, D.Active({})) == D.Decode(tree, anchors, D.Fuel(|anchors|))
  }

  lemma {:induction false} DocumentDecodes(d: Document, rest: seq<Event>, before: map<string, nat>)
    requires ValidDocument(d) && rest != [] && T.WellShaped(T.TreeOf(d.root))
    ensures var w := FlattenDocument(d) + rest;
            var table := T.Anchored(before, w, 0, |FlattenDocument(d)|);
            var tree := T.Collection(T.DocumentNode, [T.TreeOf(d.root)]);
            T.WellShaped(tree) && NamesNodes(table, w) && DecodesExactly(tree, AnchorTrees(table, w))
  {
    var w := FlattenDocument(d) + rest;
    DocumentAnchors(d, rest, before);
    var tree := T.Collection(T.DocumentNode, [T.TreeOf(d.root)]);
    var anchors := AnchorTrees(T.Anchored(before, w, 0, |FlattenDocument(d)|), w);
    D.CycleCheckIsExact(tree, anchors);
    M.DecodeIsMeaning(tree, anchors);
  }

  /**
   A document of a parsed stream decodes with its own anchors: the table the builder has made by
   the end of the document names nodes of that document, and decoding the document's tree with
   them gives what the document means, refusing for a cycle exactly the documents whose aliases
   unfold forever.
   */
  lemma {:induction false} ParsedDocumentDecodes(tokens: seq<P.Token>, events: seq<Event>, q: P.PState,
                                                 before: map<string, nat>)
      returns (docs: seq<Document>)
    requires P.Reaches(P.Initial(tokens), events, q) && q.state == P.SEnd
    ensures ValidDocuments(docs) && events == Word(docs)
    ensures docs != [] ==>
              var w := events[1..];
              var table := T.Anchored(before, w, 0, |FlattenDocument(docs[0])|);
              && T.Parse(w).Built? && T.WellShaped(T.Parse(w).value) && NamesNodes(table, w)
              && DecodesExactly(T.Parse(w).value, AnchorTrees(table, w))
  {
    docs := ParsedEventsBuild(tokens, events, q);
    if docs != [] {
      var rest := FlattenDocuments(docs[1..]) + [StreamEnd];
      var w := events[1..];
      assert w == FlattenDocument(docs[0]) + rest;
      DocumentDecodes(docs[0], rest, before);
    }
  }

  /**
   Nothing that the builder keeps is lost in decoding: the value of a parsed document without
   aliases and merges, made a tree again, flattens to the events the parser gave.
   */
  lemma {:induction false} PlainDocumentRoundTrip(tokens: seq<P.Token>, events: seq<Event>, q: P.PState,
                                                  anchors: D.Anchors)
      returns (docs: seq<Document>)
    requires P.Reaches(P.Initial(tokens), events, q) && q.state == P.SEnd && D.AllWellShaped(anchors)
    ensures ValidDocuments(docs) && events == Word(docs)
    ensures docs != [] && M.PlainTree(T.TreeOf(docs[0].root)) ==>
              && T.Parse(events[1..]).Built? && T.WellShaped(T.Parse(events[1..]).value)
              && var d := D.Decode(T.Parse(events[1..]).value, anchors, D.Active({}));
                 d.Ok? && T.Skeleton(T.Collection(T.DocumentNode, [M.Rebuilt(d.value)]))
                          == T.EraseAll(FlattenDocument(docs[0]))
  {
    docs := ParsedEventsBuild(tokens, events, q);
    if docs != [] && M.PlainTree(T.TreeOf(docs[0].root)) {
      M.PlainRoundTrip(T.TreeOf(docs[0].root), anchors, D.Active({}));
    }
  }
}
