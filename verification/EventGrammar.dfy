/**
 The YAML event language shared by the parser, the emitter and the tree builder:

   stream   ::= STREAM-START document* STREAM-END
   document ::= DOCUMENT-START node DOCUMENT-END
   node     ::= ALIAS | SCALAR
              | SEQUENCE-START node* SEQUENCE-END
              | MAPPING-START (node node)* MAPPING-END

 The language is defined twice: by flattening document trees (`Word`), and by a
 deterministic pushdown automaton (`Next`, `Run`).  The two definitions are proved
 to describe the same words and the same prefixes.
 */
module EventGrammar {
  import opened Wrappers

  datatype ScalarStyle = AnyScalar | Plain | SingleQuoted | DoubleQuoted | Literal | Folded
  datatype CollectionStyle = AnyStyle | Block | Flow
  datatype TagDirective = TagDirective(handle: string, prefix: string)

  datatype Event =
    | StreamStart
    | StreamEnd
    | DocumentStart(version: bool, tags: seq<TagDirective>, implicit: bool)
    | DocumentEnd(implicit: bool)
    | Alias(name: string)
    | Scalar(anchor: Option<string>, tag: string, value: string,
             implicit: bool, quotedImplicit: bool, style: ScalarStyle)
    | SequenceStart(anchor: Option<string>, tag: string, implicit: bool, layout: CollectionStyle)
    | SequenceEnd
    | MappingStart(anchor: Option<string>, tag: string, implicit: bool, layout: CollectionStyle)
    | MappingEnd

  // ---------- document trees and their words ----------

  datatype Node = Leaf(event: Event) | Branch(open: Event, items: seq<Node>)
  datatype Document = Document(start: Event, root: Node, end: Event)

  predicate IsLeafEvent(e: Event) { e.Alias? || e.Scalar? }

  predicate IsOpenEvent(e: Event) { e.SequenceStart? || e.MappingStart? }

  function Closer(open: Event): Event { if open.SequenceStart? then SequenceEnd else MappingEnd }

  ghost predicate ValidNode(n: Node)
    decreases n
  {
    match n
    case Leaf(e) => IsLeafEvent(e)
    case Branch(open, items) =>
      && IsOpenEvent(open)
      && (open.MappingStart? ==> |items| % 2 == 0)
      && forall i :: 0 <= i < |items| ==> ValidNode(items[i])
  }

  ghost predicate ValidDocument(d: Document) {
    d.start.DocumentStart? && ValidNode(d.root) && d.end.DocumentEnd?
  }

  ghost predicate ValidDocuments(docs: seq<Document>) {
    forall i :: 0 <= i < |docs| ==> ValidDocument(docs[i])
  }

  function Flatten(n: Node): seq<Event>
    decreases n, 0
  {
    match n
    case Leaf(e) => [e]
    case Branch(open, items) => [open] + FlattenAll(items) + [Closer(open)]
  }

  function FlattenAll(items: seq<Node>): seq<Event>
    decreases items, 1
  {
    if items == [] then [] else Flatten(items[0]) + FlattenAll(items[1..])
  }

  function FlattenDocument(d: Document): seq<Event> { [d.start] + Flatten(d.root) + [d.end] }

  function FlattenDocuments(docs: seq<Document>): seq<Event> {
    if docs == [] then [] else FlattenDocument(docs[0]) + FlattenDocuments(docs[1..])
  }

  /** The complete event word of a stream of documents. */
  function Word(docs: seq<Document>): seq<Event> { [StreamStart] + FlattenDocuments(docs) + [StreamEnd] }

  lemma {:induction false} FlattenAllSnoc(items: seq<Node>, n: Node)
    ensures FlattenAll(items + [n]) == FlattenAll(items) + Flatten(n)
  {
    if items == [] {
      assert items + [n] == [n];
      assert FlattenAll([n]) == Flatten(n) + FlattenAll([]);
    } else {
      assert (items + [n])[1..] == items[1..] + [n];
      FlattenAllSnoc(items[1..], n);
    }
  }

  lemma {:induction false} FlattenDocumentsSnoc(docs: seq<Document>, d: Document)
    ensures FlattenDocuments(docs + [d]) == FlattenDocuments(docs) + FlattenDocument(d)
  {
    if docs == [] {
      assert docs + [d] == [d];
      assert FlattenDocuments([d]) == FlattenDocument(d) + FlattenDocuments([]);
    } else {
      assert (docs + [d])[1..] == docs[1..] + [d];
      FlattenDocumentsSnoc(docs[1..], d);
    }
  }

  // ---------- the pushdown automaton ----------

  /** What an open collection expects next: an item, a key or a value. */
  datatype Slot = Item | Key | Value

  /** `Expect(slots)`: a node is due, inside the open collections `slots` (outermost first). */
  datatype Config = Start | Between | Expect(slots: seq<Slot>) | RootDone | End

  /** The configuration once a whole node has been supplied inside `slots`. */
  function AfterNode(slots: seq<Slot>): Config {
    if slots == [] then RootDone
    else
      var top := slots[|slots| - 1];
      Expect(slots[..|slots| - 1] + [if top.Key? then Value else if top.Value? then Key else Item])
  }

  function Next(c: Config, e: Event): Option<Config> {
    match c
    case Start => if e.StreamStart? then Some(Between) else None
    case Between => if e.DocumentStart? then Some(Expect([])) else if e.StreamEnd? then Some(End) else None
    case RootDone => if e.DocumentEnd? then Some(Between) else None
    case End => None
    case Expect(slots) =>
      match e
      case Alias(_) => Some(AfterNode(slots))
      case Scalar(_, _, _, _, _, _) => Some(AfterNode(slots))
      case SequenceStart(_, _, _, _) => Some(Expect(slots + [Item]))
      case MappingStart(_, _, _, _) => Some(Expect(slots + [Key]))
      case SequenceEnd =>
        if slots != [] && slots[|slots| - 1] == Item then Some(AfterNode(slots[..|slots| - 1])) else None
      case MappingEnd =>
        if slots != [] && slots[|slots| - 1] == Key then Some(AfterNode(slots[..|slots| - 1])) else None
      case _ => None
  }

  /** The end event of the innermost collection completes a node outside it. */
  lemma {:induction false} CloseInnermost(base: seq<Slot>)
    ensures Next(Expect(base + [Item]), SequenceEnd) == Some(AfterNode(base))
    ensures Next(Expect(base + [Key]), MappingEnd) == Some(AfterNode(base))
  {
    assert (base + [Item])[..|base|] == base;
    assert (base + [Key])[..|base|] == base;
  }

  function Run(c: Config, w: seq<Event>): Option<Config>
    decreases w
  {
    if w == [] then Some(c)
    else match Next(c, w[0]) case None => None case Some(c') => Run(c', w[1..])
  }

  lemma {:induction false} RunAppend(c: Config, u: seq<Event>, w: seq<Event>)
    ensures Run(c, u + w) == match Run(c, u) case None => None case Some(d) => Run(d, w)
    decreases u
  {
    if u == [] {
      assert u + w == w;
    } else {
      assert (u + w)[1..] == u[1..] + w;
      match Next(c, u[0]) {
        case None =>
        case Some(d) => RunAppend(d, u[1..], w);
      }
    }
  }

  lemma {:induction false} RunSnoc(c: Config, u: seq<Event>, e: Event)
    ensures Run(c, u + [e]) == match Run(c, u) case None => None case Some(d) => Next(d, e)
  {
    RunAppend(c, u, [e]);
    match Run(c, u) {
      case None =>
      case Some(d) => assert [e][1..] == [];
    }
  }

  // ---------- every word runs to the end ----------

  lemma {:induction false} NodeRuns(n: Node, slots: seq<Slot>)
    requires ValidNode(n)
    ensures Run(Expect(slots), Flatten(n)) == Some(AfterNode(slots))
    decreases n, 0
  {
    match n
    case Leaf(e) =>
      assert [e][1..] == [];
    case Branch(open, items) =>
      var slot := if open.SequenceStart? then Item else Key;
      var w := FlattenAll(items);
      assert (slots + [slot])[..|slots|] == slots;
      NodesRun(items, slots, slot);
      assert AfterItems(slot, |items|) == slot;
      assert [open][1..] == [];
      RunAppend(Expect(slots), [open], w);
      assert Run(Expect(slots), [open]) == Some(Expect(slots + [slot]));
      RunSnoc(Expect(slots), [open] + w, Closer(open));
  }

  function AfterItems(slot: Slot, count: nat): Slot {
    if slot.Item? || count % 2 == 0 then slot else if slot.Key? then Value else Key
  }

  lemma {:induction false} NodesRun(items: seq<Node>, slots: seq<Slot>, slot: Slot)
    requires forall i :: 0 <= i < |items| ==> ValidNode(items[i])
    ensures Run(Expect(slots + [slot]), FlattenAll(items)) == Some(Expect(slots + [AfterItems(slot, |items|)]))
    decreases items, 1
  {
    if items != [] {
      NodeRuns(items[0], slots + [slot]);
      assert (slots + [slot])[..|slots|] == slots;
      var next := AfterItems(slot, 1);
      assert AfterNode(slots + [slot]) == Expect(slots + [next]);
      NodesRun(items[1..], slots, next);
      RunAppend(Expect(slots + [slot]), Flatten(items[0]), FlattenAll(items[1..]));
      assert AfterItems(next, |items| - 1) == AfterItems(slot, |items|);
    }
  }

  lemma {:induction false} DocumentsRun(docs: seq<Document>)
    requires ValidDocuments(docs)
    ensures Run(Between, FlattenDocuments(docs)) == Some(Between)
  {
    if docs != [] {
      var d := docs[0];
      assert ValidDocument(d);
      NodeRuns(d.root, []);
      assert [d.start][1..] == [];
      RunAppend(Between, [d.start], Flatten(d.root));
      assert Run(Between, [d.start]) == Some(Expect([]));
      RunSnoc(Between, [d.start] + Flatten(d.root), d.end);
      RunAppend(Between, FlattenDocument(d), FlattenDocuments(docs[1..]));
      DocumentsRun(docs[1..]);
    }
  }

  lemma {:induction false} WordRuns(docs: seq<Document>)
    requires ValidDocuments(docs)
    ensures Run(Start, Word(docs)) == Some(End)
  {
    DocumentsRun(docs);
    assert [StreamStart][1..] == [];
    RunAppend(Start, [StreamStart], FlattenDocuments(docs));
    assert Run(Start, [StreamStart]) == Some(Between);
    RunSnoc(Start, [StreamStart] + FlattenDocuments(docs), StreamEnd);
  }

  // ---------- every run is the text of a partial tree ----------

  datatype Frame = Frame(open: Event, items: seq<Node>)

  /** A document stream under construction: what has been read so far, as trees. */
  datatype Partial =
    | PStart
    | PBetween(docs: seq<Document>)
    | PInside(docs: seq<Document>, start: Event, frames: seq<Frame>)
    | PRootDone(docs: seq<Document>, start: Event, root: Node)
    | PEnd(docs: seq<Document>)

  ghost predicate ValidFrame(f: Frame) {
    IsOpenEvent(f.open) && forall i :: 0 <= i < |f.items| ==> ValidNode(f.items[i])
  }

  ghost predicate ValidPartial(p: Partial) {
    match p
    case PStart => true
    case PBetween(docs) => ValidDocuments(docs)
    case PInside(docs, start, frames) =>
      ValidDocuments(docs) && start.DocumentStart? && forall i :: 0 <= i < |frames| ==> ValidFrame(frames[i])
    case PRootDone(docs, start, root) => ValidDocuments(docs) && start.DocumentStart? && ValidNode(root)
    case PEnd(docs) => ValidDocuments(docs)
  }

  function SlotOf(f: Frame): Slot {
    if f.open.SequenceStart? then Item else if |f.items| % 2 == 0 then Key else Value
  }

  function Slots(frames: seq<Frame>): (slots: seq<Slot>)
    ensures |slots| == |frames|
    ensures forall i :: 0 <= i < |frames| ==> slots[i] == SlotOf(frames[i])
  {
    if frames == [] then [] else Slots(frames[..|frames| - 1]) + [SlotOf(frames[|frames| - 1])]
  }

  function Shape(p: Partial): Config {
    match p
    case PStart => Start
    case PBetween(_) => Between
    case PInside(_, _, frames) => Expect(Slots(frames))
    case PRootDone(_, _, _) => RootDone
    case PEnd(_) => End
  }

  function FramesText(frames: seq<Frame>): seq<Event> {
    if frames == [] then []
    else
      var f := frames[|frames| - 1];
      FramesText(frames[..|frames| - 1]) + [f.open] + FlattenAll(f.items)
  }

  function Opening(docs: seq<Document>, start: Event): seq<Event> {
    [StreamStart] + FlattenDocuments(docs) + [start]
  }

  function Text(p: Partial): seq<Event> {
    match p
    case PStart => []
    case PBetween(docs) => [StreamStart] + FlattenDocuments(docs)
    case PInside(docs, start, frames) => Opening(docs, start) + FramesText(frames)
    case PRootDone(docs, start, root) => Opening(docs, start) + Flatten(root)
    case PEnd(docs) => Word(docs)
  }

  function Attach(docs: seq<Document>, start: Event, frames: seq<Frame>, n: Node): Partial {
    if frames == [] then PRootDone(docs, start, n)
    else
      var top := frames[|frames| - 1];
      PInside(docs, start, frames[..|frames| - 1] + [top.(items := top.items + [n])])
  }

  function Grow(p: Partial, e: Event): Partial
    requires Next(Shape(p), e).Some?
  {
    match p
    case PStart => PBetween([])
    case PBetween(docs) => if e.DocumentStart? then PInside(docs, e, []) else PEnd(docs)
    case PRootDone(docs, start, root) => PBetween(docs + [Document(start, root, e)])
    case PEnd(_) => p
    case PInside(docs, start, frames) =>
      if IsLeafEvent(e) then Attach(docs, start, frames, Leaf(e))
      else if IsOpenEvent(e) then PInside(docs, start, frames + [Frame(e, [])])
      else
        var top := frames[|frames| - 1];
        Attach(docs, start, frames[..|frames| - 1], Branch(top.open, top.items))
  }

  lemma {:induction false} FramesTextGrows(frames: seq<Frame>, n: Node)
    requires frames != []
    ensures var top, rest := frames[|frames| - 1], frames[..|frames| - 1];
            FramesText(rest + [top.(items := top.items + [n])]) == FramesText(frames) + Flatten(n)
  {
    var top, rest := frames[|frames| - 1], frames[..|frames| - 1];
    var grown := top.(items := top.items + [n]);
    assert (rest + [grown])[..|rest|] == rest;
    FlattenAllSnoc(top.items, n);
    var before := FramesText(rest) + [top.open];
    assert before + (FlattenAll(top.items) + Flatten(n)) == before + FlattenAll(top.items) + Flatten(n);
  }

  lemma {:induction false} SlotsSnoc(rest: seq<Frame>, f: Frame)
    ensures Slots(rest + [f]) == Slots(rest) + [SlotOf(f)]
  {
    assert (rest + [f])[..|rest|] == rest;
  }

  lemma {:induction false} AfterNodeSnoc(slots: seq<Slot>, top: Slot)
    ensures AfterNode(slots + [top]) == Expect(slots + [if top.Key? then Value else if top.Value? then Key else Item])
  {
    assert (slots + [top])[..|slots|] == slots;
  }

  lemma {:induction false} SlotsGrow(frames: seq<Frame>, n: Node)
    requires frames != []
    ensures var top, rest := frames[|frames| - 1], frames[..|frames| - 1];
            Expect(Slots(rest + [top.(items := top.items + [n])])) == AfterNode(Slots(frames))
  {
    var top, rest := frames[|frames| - 1], frames[..|frames| - 1];
    var grown := top.(items := top.items + [n]);
    SlotsSnoc(rest, grown);
    SlotsSnoc(rest, top);
    assert rest + [top] == frames;
    AfterNodeSnoc(Slots(rest), SlotOf(top));
  }

  lemma {:induction false} AttachText(docs: seq<Document>, start: Event, frames: seq<Frame>, n: Node)
    requires ValidPartial(PInside(docs, start, frames)) && ValidNode(n)
    ensures ValidPartial(Attach(docs, start, frames, n))
    ensures Text(Attach(docs, start, frames, n)) == Text(PInside(docs, start, frames)) + Flatten(n)
    ensures Shape(Attach(docs, start, frames, n)) == AfterNode(Slots(frames))
  {
    var before := Opening(docs, start);
    if frames == [] {
      assert before + [] == before;
    } else {
      var top := frames[|frames| - 1];
      FramesTextGrows(frames, n);
      SlotsGrow(frames, n);
      assert before + (FramesText(frames) + Flatten(n)) == before + FramesText(frames) + Flatten(n);
      assert ValidFrame(top);
      assert ValidFrame(top.(items := top.items + [n]));
    }
  }

  lemma {:induction false} ClosedText(opening: seq<Event>, frames: seq<Frame>, e: Event)
    requires frames != [] && e == Closer(frames[|frames| - 1].open)
    ensures var top, rest := frames[|frames| - 1], frames[..|frames| - 1];
            (opening + FramesText(rest)) + Flatten(Branch(top.open, top.items)) == (opening + FramesText(frames)) + [e]
  {
    var top, rest := frames[|frames| - 1], frames[..|frames| - 1];
    var items := FlattenAll(top.items);
    assert FramesText(frames) == FramesText(rest) + [top.open] + items;
    assert Flatten(Branch(top.open, top.items)) == [top.open] + items + [e];
  }

  lemma {:induction false} GrowCloses(docs: seq<Document>, start: Event, frames: seq<Frame>, e: Event)
    requires ValidPartial(PInside(docs, start, frames))
    requires frames != [] && e == Closer(frames[|frames| - 1].open)
    requires SlotOf(frames[|frames| - 1]) != Value
    ensures var top, rest := frames[|frames| - 1], frames[..|frames| - 1];
            var p := Attach(docs, start, rest, Branch(top.open, top.items));
            && ValidPartial(p)
            && Text(p) == Text(PInside(docs, start, frames)) + [e]
            && Shape(p) == AfterNode(Slots(rest))
  {
    var top, rest := frames[|frames| - 1], frames[..|frames| - 1];
    var n := Branch(top.open, top.items);
    assert ValidNode(n) by { assert ValidFrame(top); }
    assert ValidPartial(PInside(docs, start, rest));
    AttachText(docs, start, rest, n);
    ClosedText(Opening(docs, start), frames, e);
  }

  lemma {:induction false} GrowOpens(docs: seq<Document>, start: Event, frames: seq<Frame>, e: Event)
    requires ValidPartial(PInside(docs, start, frames)) && IsOpenEvent(e)
    ensures var p := PInside(docs, start, frames + [Frame(e, [])]);
            && ValidPartial(p)
            && Text(p) == Text(PInside(docs, start, frames)) + [e]
            && Shape(p) == Expect(Slots(frames) + [if e.SequenceStart? then Item else Key])
  {
    assert (frames + [Frame(e, [])])[..|frames|] == frames;
    assert FramesText(frames + [Frame(e, [])]) == FramesText(frames) + [e] + [];
    assert ValidFrame(Frame(e, []));
  }

  lemma {:induction false} GrowDocument(docs: seq<Document>, start: Event, root: Node, e: Event)
    requires ValidPartial(PRootDone(docs, start, root)) && e.DocumentEnd?
    ensures ValidDocuments(docs + [Document(start, root, e)])
    ensures Text(PBetween(docs + [Document(start, root, e)])) == Text(PRootDone(docs, start, root)) + [e]
  {
    var d := Document(start, root, e);
    assert ValidDocument(d);
    FlattenDocumentsSnoc(docs, d);
    Regroup([StreamStart], FlattenDocuments(docs), [start], Flatten(root), [e]);
  }

  lemma Regroup<T>(a: seq<T>, b: seq<T>, c: seq<T>, d: seq<T>, e: seq<T>)
    ensures a + (b + (c + d + e)) == a + b + c + d + e
  {
  }

  ghost predicate GrowsBy(p: Partial, e: Event)
    requires Next(Shape(p), e).Some?
  {
    && ValidPartial(Grow(p, e))
    && Text(Grow(p, e)) == Text(p) + [e]
    && Some(Shape(Grow(p, e))) == Next(Shape(p), e)
  }

  lemma {:induction false} GrowInside(p: Partial, e: Event)
    requires p.PInside? && ValidPartial(p) && Next(Shape(p), e).Some?
    ensures GrowsBy(p, e)
  {
    var PInside(docs, start, frames) := p;
    if IsLeafEvent(e) {
      AttachText(docs, start, frames, Leaf(e));
      assert Grow(p, e) == Attach(docs, start, frames, Leaf(e));
    } else if IsOpenEvent(e) {
      GrowOpens(docs, start, frames, e);
      assert Grow(p, e) == PInside(docs, start, frames + [Frame(e, [])]);
    } else {
      GrowInsideCloses(p, e);
    }
  }

  /** An event that ends a collection ends the innermost one, which is not waiting for a value. */
  lemma {:induction false} ClosesTop(slots: seq<Slot>, top: Slot, e: Event)
    requires Next(Expect(slots + [top]), e).Some? && !IsLeafEvent(e) && !IsOpenEvent(e)
    ensures Next(Expect(slots + [top]), e) == Some(AfterNode(slots))
    ensures (e.SequenceEnd? && top == Item) || (e.MappingEnd? && top == Key)
  {
    assert (slots + [top])[..|slots|] == slots;
  }

  lemma {:induction false} GrowInsideCloses(p: Partial, e: Event)
    requires p.PInside? && ValidPartial(p) && Next(Shape(p), e).Some? && !IsLeafEvent(e) && !IsOpenEvent(e)
    ensures GrowsBy(p, e)
  {
    var PInside(docs, start, frames) := p;
    var top, rest := frames[|frames| - 1], frames[..|frames| - 1];
    assert ValidFrame(top);
    assert rest + [top] == frames;
    SlotsSnoc(rest, top);
    ClosesTop(Slots(rest), SlotOf(top), e);
    GrowCloses(docs, start, frames, e);
    assert Grow(p, e) == Attach(docs, start, frames[..|frames| - 1], Branch(top.open, top.items));
  }

  lemma {:induction false} GrowText(p: Partial, e: Event)
    requires ValidPartial(p) && Next(Shape(p), e).Some?
    ensures GrowsBy(p, e)
  {
    match p {
      case PStart =>
      case PEnd(_) =>
      case PBetween(docs) =>
      case PRootDone(docs, start, root) => GrowDocument(docs, start, root, e);
      case PInside(docs, start, frames) => GrowInside(p, e);
    }
  }

  /** A run of the automaton reads exactly the text of some partial tree of the same shape. */
  lemma {:induction false} RunHasTree(w: seq<Event>) returns (p: Partial)
    requires Run(Start, w).Some?
    ensures ValidPartial(p) && Text(p) == w && Some(Shape(p)) == Run(Start, w)
    decreases |w|
  {
    if w == [] {
      p := PStart;
    } else {
      var u, e := w[..|w| - 1], w[|w| - 1];
      assert w == u + [e];
      RunSnoc(Start, u, e);
      p := RunHasTree(u);
      GrowText(p, e);
      p := Grow(p, e);
    }
  }

  /** An event that brings an unfinished stream one step closer to its end. */
  function ClosingEvent(c: Config): Event {
    match c
    case Start => StreamStart
    case Between => StreamEnd
    case RootDone => DocumentEnd(true)
    case End => StreamEnd
    case Expect(slots) =>
      if slots == [] || slots[|slots| - 1] == Value then Scalar(None, "", "", true, false, Plain)
      else if slots[|slots| - 1] == Item then SequenceEnd else MappingEnd
  }

  function Distance(c: Config): nat {
    match c
    case Start => 2
    case Between => 1
    case RootDone => 2
    case End => 0
    case Expect(slots) =>
      3 + 2 * |slots| + if slots != [] && slots[|slots| - 1] == Value then 1 else 0
  }

  lemma {:induction false} ClosingEventCloses(c: Config)
    requires c != End
    ensures Next(c, ClosingEvent(c)).Some?
    ensures Distance(Next(c, ClosingEvent(c)).value) < Distance(c)
  {
  }

  lemma {:induction false} PartialCompletes(p: Partial) returns (docs: seq<Document>, rest: seq<Event>)
    requires ValidPartial(p)
    ensures ValidDocuments(docs) && Text(p) + rest == Word(docs)
    decreases Distance(Shape(p))
  {
    if p.PEnd? {
      docs, rest := p.docs, [];
    } else {
      var e := ClosingEvent(Shape(p));
      ClosingEventCloses(Shape(p));
      GrowText(p, e);
      docs, rest := PartialCompletes(Grow(p, e));
      assert Text(p) + ([e] + rest) == (Text(p) + [e]) + rest;
      rest := [e] + rest;
    }
  }

  // ---------- the two definitions agree ----------

  ghost predicate IsWord(w: seq<Event>) {
    exists docs :: ValidDocuments(docs) && w == Word(docs)
  }

  ghost predicate IsPrefixOfWord(w: seq<Event>) {
    exists rest :: IsWord(w + rest)
  }

  /** The automaton accepts exactly the words, and survives exactly on their prefixes. */
  lemma {:induction false} AutomatonIsGrammar(w: seq<Event>)
    ensures Run(Start, w) == Some(End) <==> IsWord(w)
    ensures Run(Start, w).Some? <==> IsPrefixOfWord(w)
  {
    if Run(Start, w).Some? {
      var p := RunHasTree(w);
      var docs, rest := PartialCompletes(p);
      assert IsWord(w + rest);
      if Run(Start, w) == Some(End) {
        assert p.PEnd?;
        assert ValidDocuments(p.docs) && w == Word(p.docs);
      }
    }
    if IsWord(w) {
      var docs :| ValidDocuments(docs) && w == Word(docs);
      WordRuns(docs);
    }
    if IsPrefixOfWord(w) {
      var rest :| IsWord(w + rest);
      var docs :| ValidDocuments(docs) && w + rest == Word(docs);
      WordRuns(docs);
      RunAppend(Start, w, rest);
    }
  }
}
