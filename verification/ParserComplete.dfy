/**
 Completeness of the parser: the grammar of the source's header comment as derivation
 trees, each with the tokens it spans and the events it means.  Parsing the tokens of a
 tree returns exactly its events if and only if `Exact` holds of the tree.

 Token and event functions take what follows as a last argument: `Tokens(t, k)` is the
 tokens of `t` followed by `k`.
 */
module ParserComplete {
  import opened Wrappers
  import opened G = EventGrammar
  import opened ParserSpec

  // ---------- derivation trees ----------

  datatype Props = Props(anchor: Option<string>, tag: Option<Tag>, tagFirst: bool)

  /** A node position; `Omitted` where the grammar makes the node optional. */
  datatype Tree = Omitted | AliasTree(name: string) | NodeTree(props: Props, content: Content)

  datatype Content =
    | NoContent
    | ScalarContent(value: string, style: ScalarStyle)
    | BlockSequence(items: seq<Tree>)
    | IndentlessSequence(items: seq<Tree>)
    | BlockMapping(pairs: seq<BlockPair>)
    | FlowSequence(entries: seq<Entry>, trailingComma: bool)
    | FlowMapping(entries: seq<Entry>, trailingComma: bool)

  /** KEY node? (VALUE node?)? */
  datatype Pair = Pair(key: Tree, value: Option<Tree>)

  /** A pair of a block mapping may also do without its KEY. */
  datatype BlockPair = WithKey(pair: Pair) | ValueOnly(value: Tree)

  datatype Entry = Single(node: Tree) | Keyed(pair: Pair)

  // ---------- tokens ----------

  function PropTokens(p: Props, k: seq<Token>): seq<Token> {
    var anchor := if p.anchor.Some? then [AnchorT(p.anchor.value)] else [];
    var tag := if p.tag.Some? then [TagT(p.tag.value.handle, p.tag.value.suffix)] else [];
    if p.tagFirst then tag + (anchor + k) else anchor + (tag + k)
  }

  function Tokens(t: Tree, k: seq<Token>): seq<Token>
    decreases t
  {
    match t
    case Omitted => k
    case AliasTree(name) => [AliasT(name)] + k
    case NodeTree(props, content) => PropTokens(props, ContentTokens(content, k))
  }

  function ContentTokens(c: Content, k: seq<Token>): seq<Token>
    decreases c
  {
    match c
    case NoContent => k
    case ScalarContent(value, style) => [ScalarT(value, style)] + k
    case BlockSequence(items) => [BlockSequenceStartT] + ItemsTokens(items, [BlockEndT] + k)
    case IndentlessSequence(items) => ItemsTokens(items, k)
    case BlockMapping(pairs) => [BlockMappingStartT] + PairsTokens(pairs, [BlockEndT] + k)
    case FlowSequence(entries, trailing) =>
      [FlowSequenceStartT] + EntriesTokens(entries, trailing, [FlowSequenceEndT] + k)
    case FlowMapping(entries, trailing) =>
      [FlowMappingStartT] + EntriesTokens(entries, trailing, [FlowMappingEndT] + k)
  }

  function ItemsTokens(items: seq<Tree>, k: seq<Token>): seq<Token>
    decreases items
  {
    if items == [] then k else [BlockEntryT] + Tokens(items[0], ItemsTokens(items[1..], k))
  }

  function PairTokens(p: Pair, k: seq<Token>): seq<Token>
    decreases p
  {
    [KeyT] + Tokens(p.key, ValueTokens(p.value, k))
  }

  function ValueTokens(v: Option<Tree>, k: seq<Token>): seq<Token>
    decreases v
  {
    if v.None? then k else [ValueT] + Tokens(v.value, k)
  }

  function BlockPairTokens(p: BlockPair, k: seq<Token>): seq<Token>
    decreases p
  {
    match p
    case WithKey(pair) => PairTokens(pair, k)
    case ValueOnly(value) => [ValueT] + Tokens(value, k)
  }

  function PairsTokens(pairs: seq<BlockPair>, k: seq<Token>): seq<Token>
    decreases pairs
  {
    if pairs == [] then k else BlockPairTokens(pairs[0], PairsTokens(pairs[1..], k))
  }

  function EntryTokens(e: Entry, k: seq<Token>): seq<Token>
    decreases e
  {
    match e
    case Single(t) => Tokens(t, k)
    case Keyed(p) => PairTokens(p, k)
  }

  /** What follows a flow entry: the remaining entries, each behind its comma. */
  function TailTokens(entries: seq<Entry>, trailing: bool, k: seq<Token>): seq<Token>
    decreases entries
  {
    if entries == [] then if trailing then [FlowEntryT] + k else k
    else [FlowEntryT] + EntryTokens(entries[0], TailTokens(entries[1..], trailing, k))
  }

  function EntriesTokens(entries: seq<Entry>, trailing: bool, k: seq<Token>): seq<Token>
    decreases entries, 1
  {
    if entries == [] then k else EntryTokens(entries[0], TailTokens(entries[1..], trailing, k))
  }

  // ---------- events ----------

  /** Directive `i` is the first that names `handle`. */
  ghost predicate FirstNaming(tags: seq<TagDirective>, handle: string, i: int) {
    && 0 <= i < |tags| && tags[i].handle == handle
    && forall j :: 0 <= j < i ==> tags[j].handle != handle
  }

  /** A handle stands for the prefix that is first declared for it, and no tag is empty then. */
  ghost predicate TagStands(tags: seq<TagDirective>, tag: Option<Tag>) {
    match tag
    case None => true
    case Some(t) =>
      t.handle == "" || exists i :: FirstNaming(tags, t.handle, i) && (tags[i].prefix != "" || t.suffix != "")
  }

  /** The tag written out: the prefix its handle stands for, and the suffix. */
  ghost function TagOf(tags: seq<TagDirective>, p: Props): string {
    match p.tag
    case None => ""
    case Some(t) =>
      if t.handle == "" then t.suffix
      else if i :| FirstNaming(tags, t.handle, i) then tags[i].prefix + t.suffix else ""
  }

  /** The event of a node that is not there. */
  const Absent := Scalar(None, "", "", true, false, Plain)

  ghost function Events(t: Tree, tags: seq<TagDirective>, k: seq<Event>): (r: seq<Event>)
    ensures r != []
    decreases t
  {
    match t
    case Omitted => [Absent] + k
    case AliasTree(name) => [Alias(name)] + k
    case NodeTree(props, content) => ContentEvents(content, props.anchor, TagOf(tags, props), tags, k)
  }

  ghost function ContentEvents(c: Content, anchor: Option<string>, tag: string, tags: seq<TagDirective>, k: seq<Event>)
    : (r: seq<Event>)
    ensures r != []
    decreases c
  {
    match c
    case NoContent => [Scalar(anchor, tag, "", tag == "", false, Plain)] + k
    case ScalarContent(value, style) =>
      [Scalar(anchor, tag, value, (tag == "" && style == Plain) || tag == "!", tag == "" && style != Plain, style)] + k
    case BlockSequence(items) =>
      [SequenceStart(anchor, tag, tag == "", Block)] + ItemsEvents(items, tags, [SequenceEnd] + k)
    case IndentlessSequence(items) =>
      [SequenceStart(anchor, tag, tag == "", Block)] + ItemsEvents(items, tags, [SequenceEnd] + k)
    case BlockMapping(pairs) =>
      [MappingStart(anchor, tag, tag == "", Block)] + PairsEvents(pairs, tags, [MappingEnd] + k)
    case FlowSequence(entries, _) =>
      [SequenceStart(anchor, tag, tag == "", Flow)] + SequenceEntriesEvents(entries, tags, [SequenceEnd] + k)
    case FlowMapping(entries, _) =>
      [MappingStart(anchor, tag, tag == "", Flow)] + MappingEntriesEvents(entries, tags, [MappingEnd] + k)
  }

  ghost function ItemsEvents(items: seq<Tree>, tags: seq<TagDirective>, k: seq<Event>): (r: seq<Event>)
    ensures k != [] ==> r != []
    decreases items
  {
    if items == [] then k else Events(items[0], tags, ItemsEvents(items[1..], tags, k))
  }

  ghost function PairEvents(p: Pair, tags: seq<TagDirective>, k: seq<Event>): (r: seq<Event>)
    ensures r != []
    decreases p
  {
    Events(p.key, tags, ValueEvents(p.value, tags, k))
  }

  ghost function ValueEvents(v: Option<Tree>, tags: seq<TagDirective>, k: seq<Event>): (r: seq<Event>)
    ensures r != []
    decreases v
  {
    if v.None? then [Absent] + k else Events(v.value, tags, k)
  }

  /** A key that is not there is empty. */
  ghost function BlockPairEvents(p: BlockPair, tags: seq<TagDirective>, k: seq<Event>): (r: seq<Event>)
    ensures r != []
    decreases p
  {
    match p
    case WithKey(pair) => PairEvents(pair, tags, k)
    case ValueOnly(value) => [Absent] + Events(value, tags, k)
  }

  ghost function PairsEvents(pairs: seq<BlockPair>, tags: seq<TagDirective>, k: seq<Event>): (r: seq<Event>)
    ensures k != [] ==> r != []
    decreases pairs
  {
    if pairs == [] then k else BlockPairEvents(pairs[0], tags, PairsEvents(pairs[1..], tags, k))
  }

  /** A keyed entry of a flow sequence is a mapping with one pair. */
  ghost function SequenceEntryEvents(e: Entry, tags: seq<TagDirective>, k: seq<Event>): (r: seq<Event>)
    ensures r != []
    decreases e
  {
    match e
    case Single(t) => Events(t, tags, k)
    case Keyed(p) => [MappingStart(None, "", true, Flow)] + PairEvents(p, tags, [MappingEnd] + k)
  }

  ghost function SequenceEntriesEvents(entries: seq<Entry>, tags: seq<TagDirective>, k: seq<Event>): (r: seq<Event>)
    ensures k != [] ==> r != []
    decreases entries
  {
    if entries == [] then k else SequenceEntryEvents(entries[0], tags, SequenceEntriesEvents(entries[1..], tags, k))
  }

  /** A plain entry of a flow mapping is a key whose value is empty. */
  ghost function MappingEntryEvents(e: Entry, tags: seq<TagDirective>, k: seq<Event>): (r: seq<Event>)
    ensures r != []
    decreases e
  {
    match e
    case Single(t) => Events(t, tags, [Absent] + k)
    case Keyed(p) => PairEvents(p, tags, k)
  }

  ghost function MappingEntriesEvents(entries: seq<Entry>, tags: seq<TagDirective>, k: seq<Event>): (r: seq<Event>)
    ensures k != [] ==> r != []
    decreases entries
  {
    if entries == [] then k else MappingEntryEvents(entries[0], tags, MappingEntriesEvents(entries[1..], tags, k))
  }

  // ---------- which trees are derivations ----------

  /** Where a node stands: block collections allowed, indentless sequences allowed. */
  datatype Where = Where(block: bool, indentless: bool)
  const InFlow := Where(false, false)
  const InSequence := Where(true, false)
  const InMapping := Where(true, true)

  ghost predicate Derives(t: Tree, w: Where)
    decreases t, 0
  {
    match t
    case Omitted => false
    case AliasTree(_) => true
    case NodeTree(props, content) =>
      (content.NoContent? ==> props.anchor.Some? || props.tag.Some?) && ContentDerives(content, w)
  }

  ghost predicate DerivesOptional(t: Tree, w: Where)
    decreases t, 1
  {
    t.Omitted? || Derives(t, w)
  }

  ghost predicate ContentDerives(c: Content, w: Where)
    decreases c
  {
    match c
    case NoContent => true
    case ScalarContent(_, _) => true
    case BlockSequence(items) =>
      w.block && forall i :: 0 <= i < |items| ==> DerivesOptional(items[i], InSequence)
    case IndentlessSequence(items) =>
      w.indentless && items != [] && forall i :: 0 <= i < |items| ==> DerivesOptional(items[i], InSequence)
    case BlockMapping(pairs) => w.block && forall i :: 0 <= i < |pairs| ==> BlockPairDerives(pairs[i])
    case FlowSequence(entries, trailing) =>
      && (trailing ==> entries != [])
      && forall i :: 0 <= i < |entries| ==> EntryDerives(entries[i])
    case FlowMapping(entries, trailing) =>
      && (trailing ==> entries != [])
      && forall i :: 0 <= i < |entries| ==> EntryDerives(entries[i])
  }

  ghost predicate PairDerives(p: Pair, w: Where)
    decreases p
  {
    DerivesOptional(p.key, w) && (p.value.Some? ==> DerivesOptional(p.value.value, w))
  }

  ghost predicate BlockPairDerives(p: BlockPair)
    decreases p
  {
    match p
    case WithKey(pair) => PairDerives(pair, InMapping)
    case ValueOnly(value) => DerivesOptional(value, InMapping)
  }

  ghost predicate EntryDerives(e: Entry)
    decreases e
  {
    match e
    case Single(t) => Derives(t, InFlow)
    case Keyed(p) => PairDerives(p, InFlow)
  }

  // ---------- which derivations are read as they are meant ----------

  /**
   Inside a flow sequence, after a KEY token without a key node, the code drops the token that
   should end the key.  That leaves the entry intact only when the dropped token is the VALUE
   of an omitted value.
   */
  predicate KeyPresent(e: Entry) {
    e.Keyed? && e.pair.key.Omitted? ==> e.pair.value.Some? && e.pair.value.value.Omitted?
  }

  /** A dropped comma does no harm either when only the closing bracket comes after it. */
  predicate KeyRead(e: Entry, commaLast: bool) {
    KeyPresent(e) || (commaLast && e.pair.value.None?)
  }

  /** A node without content needs a name or a tag that says something. */
  predicate Stands(c: Content, anchor: Option<string>, tag: string) {
    c.NoContent? ==> (anchor.Some? && anchor.value != "") || tag != ""
  }

  /**
   The code reads the tree as the grammar means it: the tag handles are defined, nodes without
   content stand, no flow sequence loses a token it needs, and no pair of a block mapping
   begins at its VALUE.
   */
  ghost predicate Exact(t: Tree, tags: seq<TagDirective>)
    decreases t
  {
    match t
    case NodeTree(props, content) =>
      && TagStands(tags, props.tag)
      && Stands(content, props.anchor, TagOf(tags, props))
      && ContentExact(content, tags)
    case _ => true
  }

  ghost predicate ContentExact(c: Content, tags: seq<TagDirective>)
    decreases c
  {
    match c
    case BlockSequence(items) => ItemsExact(items, tags)
    case IndentlessSequence(items) => ItemsExact(items, tags)
    case BlockMapping(pairs) => PairsExact(pairs, tags)
    case FlowSequence(entries, trailing) => SequenceExact(entries, trailing, tags)
    case FlowMapping(entries, _) => MappingExact(entries, tags)
    case _ => true
  }

  ghost predicate ItemsExact(items: seq<Tree>, tags: seq<TagDirective>)
    decreases items
  {
    items == [] || (Exact(items[0], tags) && ItemsExact(items[1..], tags))
  }

  ghost predicate PairExact(p: Pair, tags: seq<TagDirective>)
    decreases p
  {
    Exact(p.key, tags) && ValueExact(p.value, tags)
  }

  ghost predicate ValueExact(v: Option<Tree>, tags: seq<TagDirective>)
    decreases v
  {
    v.Some? ==> Exact(v.value, tags)
  }

  ghost predicate BlockPairExact(p: BlockPair, tags: seq<TagDirective>)
    decreases p
  {
    p.WithKey? && PairExact(p.pair, tags)
  }

  ghost predicate PairsExact(pairs: seq<BlockPair>, tags: seq<TagDirective>)
    decreases pairs
  {
    pairs == [] || (BlockPairExact(pairs[0], tags) && PairsExact(pairs[1..], tags))
  }

  ghost predicate EntryExact(e: Entry, tags: seq<TagDirective>)
    decreases e
  {
    match e
    case Single(t) => Exact(t, tags)
    case Keyed(p) => PairExact(p, tags)
  }

  ghost predicate SequenceExact(entries: seq<Entry>, trailing: bool, tags: seq<TagDirective>)
    decreases entries
  {
    entries == [] ||
    (&& EntryExact(entries[0], tags)
     && KeyRead(entries[0], trailing && |entries| == 1)
     && SequenceExact(entries[1..], trailing, tags))
  }

  ghost predicate MappingExact(entries: seq<Entry>, tags: seq<TagDirective>)
    decreases entries
  {
    entries == [] || (EntryExact(entries[0], tags) && MappingExact(entries[1..], tags))
  }

  // ---------- one step after another ----------

  /** The step that loses the bracket of a flow sequence. */
  predicate DropsBracket(p: PState) {
    p.state.SFlowSequenceEntryMappingKey? && p.tokens != [] && p.tokens[0].FlowSequenceEndT?
  }

  /** Where a run should end, and whether it must get there without losing a bracket. */
  datatype Goal = Goal(end: PState, strict: bool)

  /** `events` are the next events the parser returns, and they lead from `p` to the goal. */
  ghost predicate Meets(p: PState, events: seq<Event>, g: Goal)
    decreases |events|
  {
    if events == [] then p == g.end
    else
      && p.state != SEnd && !(g.strict && DropsBracket(p))
      && Step(p).Emit? && Step(p).event == events[0] && Meets(Step(p).next, events[1..], g)
  }

  /** Outcome `o` emits the first of `events` and the parser then returns the others, up to the goal. */
  ghost predicate From(o: Outcome, events: seq<Event>, g: Goal) {
    events != [] && o.Emit? && o.event == events[0] && Meets(o.next, events[1..], g)
  }

  lemma {:induction false} MeetsReaches(p: PState, events: seq<Event>, q: PState)
    ensures Meets(p, events, Goal(q, false)) <==> Reaches(p, events, q)
    decreases |events|
  {
    if events != [] && p.state != SEnd && Step(p).Emit? {
      MeetsReaches(Step(p).next, events[1..], q);
    }
  }

  lemma {:induction false} EmitThen(e: Event, q: PState, k: seq<Event>, g: Goal)
    ensures From(Emit(e, q), [e] + k, g) <==> Meets(q, k, g)
  {
    assert ([e] + k)[1..] == k;
  }

  lemma {:induction false} StepThen(q: PState, events: seq<Event>, g: Goal)
    requires q.state != SEnd && events != [] && !(g.strict && DropsBracket(q))
    ensures Meets(q, events, g) <==> From(Step(q), events, g)
  {
  }

  lemma {:induction false} OpenThen(e: Event, s: PState, events: seq<Event>, g: Goal)
    requires s.state != SEnd && events != [] && !(g.strict && DropsBracket(s))
    ensures From(Emit(e, s), [e] + events, g) <==> From(Step(s), events, g)
  {
    EmitThen(e, s, events, g);
  }

  lemma {:induction false} OpenedBefore(e: Event, p: PState, q: PState, events: seq<Event>, g: Goal)
    requires p.state != SEnd && Step(p) == Emit(e, q) && !(g.strict && DropsBracket(p))
    ensures Meets(p, [e] + events, g) <==> Meets(q, events, g)
  {
    EmitThen(e, q, events, g);
    StepThen(p, [e] + events, g);
  }

  lemma {:induction false} PopPushed(p: PState, s: State)
    ensures PopTo(Push(p, s)) == p.(state := s)
  {
    assert (p.states + [s])[..|p.states|] == p.states;
  }

  lemma {:induction false} SkipHead(p: PState, t: Token, k: seq<Token>)
    requires p.tokens == [t] + k
    ensures Skip(p) == p.(tokens := k)
  {
    assert ([t] + k)[1..] == k;
  }

  // ---------- first tokens ----------

  predicate StartsNode(t: Token, indentless: bool) {
    || t.AliasT? || t.AnchorT? || t.TagT? || t.ScalarT?
    || t.FlowSequenceStartT? || t.FlowMappingStartT? || t.BlockSequenceStartT? || t.BlockMappingStartT?
    || (indentless && t.BlockEntryT?)
  }

  /** A token that may follow a node: never the start of another one. */
  predicate Follows(k: seq<Token>, indentless: bool) {
    k != [] && !StartsNode(k[0], indentless) && (indentless ==> EndsBlockPart(k[0]))
  }

  lemma {:induction false} ContentHead(c: Content, w: Where, k: seq<Token>)
    requires ContentDerives(c, w)
    ensures !c.NoContent? ==>
              var all := ContentTokens(c, k);
              all != [] && StartsNode(all[0], w.indentless) && !all[0].AnchorT? && !all[0].TagT? && !all[0].AliasT?
    ensures c.NoContent? ==> ContentTokens(c, k) == k
  {
  }

  lemma {:induction false} NodeHead(t: Tree, w: Where, k: seq<Token>)
    requires Derives(t, w) && Follows(k, w.indentless)
    ensures Tokens(t, k) != [] && StartsNode(Tokens(t, k)[0], w.indentless)
  {
    if t.NodeTree? {
      ContentHead(t.content, w, k);
      if t.props.anchor.None? && t.props.tag.None? {
        assert PropTokens(t.props, ContentTokens(t.content, k)) == ContentTokens(t.content, k);
      }
    }
  }

  lemma {:induction false} PropertiesRead(props: Props, p: PState, k: seq<Token>)
    requires p.tokens == PropTokens(props, k) && k != [] && !k[0].AnchorT? && !k[0].TagT?
    ensures p.tokens != [] && ParseProperties(p) == Some(Properties(p.(tokens := k), props.anchor, props.tag))
    ensures p.tokens[0].AliasT? ==> p.tokens == k
  {
    assert [] + k == k;
    if props.anchor.Some? && props.tag.Some? {
      var a, t := AnchorT(props.anchor.value), TagT(props.tag.value.handle, props.tag.value.suffix);
      BothRead(p, if props.tagFirst then t else a, if props.tagFirst then a else t, k);
    } else if props.anchor.Some? {
      OneRead(p, AnchorT(props.anchor.value), k);
    } else if props.tag.Some? {
      OneRead(p, TagT(props.tag.value.handle, props.tag.value.suffix), k);
    }
  }

  lemma {:induction false} OneRead(p: PState, x: Token, k: seq<Token>)
    requires p.tokens == [x] + k && k != [] && !k[0].AnchorT? && !k[0].TagT? && (x.AnchorT? || x.TagT?)
    ensures ParseProperties(p) == Some(Properties(p.(tokens := k), if x.AnchorT? then Some(x.name) else None,
                                                  if x.TagT? then Some(Tag(x.handle, x.suffix)) else None))
  {
    SkipHead(p, x, k);
  }

  lemma {:induction false} BothRead(p: PState, x: Token, y: Token, k: seq<Token>)
    requires p.tokens == [x] + ([y] + k) && k != [] && ((x.AnchorT? && y.TagT?) || (x.TagT? && y.AnchorT?))
    ensures var (a, t) := (if x.AnchorT? then x else y, if x.AnchorT? then y else x);
            ParseProperties(p) == Some(Properties(p.(tokens := k), Some(a.name), Some(Tag(t.handle, t.suffix))))
  {
    SkipHead(p, x, [y] + k);
    SkipHead(Skip(p), y, k);
  }

  // ---------- nodes ----------

  /** The code's lookup finds the prefix first declared, if any. */
  lemma {:induction false} PrefixFound(tags: seq<TagDirective>, handle: string, i: int)
    ensures FirstNaming(tags, handle, i) ==> FindPrefix(tags, handle) == Some(tags[i].prefix)
    decreases |tags|
  {
    if FirstNaming(tags, handle, i) && i > 0 {
      assert tags[0].handle != handle;
      forall j | 0 <= j < i - 1 ensures tags[1..][j].handle != handle {
        assert tags[1..][j] == tags[j + 1];
      }
      PrefixFound(tags[1..], handle, i - 1);
    }
  }

  lemma {:induction false} PrefixMissing(tags: seq<TagDirective>, handle: string)
    requires forall i :: !FirstNaming(tags, handle, i)
    ensures FindPrefix(tags, handle) == None
    decreases |tags|
  {
    if tags != [] {
      assert !FirstNaming(tags, handle, 0);
      forall i ensures !FirstNaming(tags[1..], handle, i) {
        if FirstNaming(tags[1..], handle, i) {
          assert !FirstNaming(tags, handle, i + 1);
          forall j | 0 <= j < i + 1 ensures tags[j].handle != handle {
            assert j > 0 ==> tags[j] == tags[1..][j - 1];
          }
          assert false;
        }
      }
      PrefixMissing(tags[1..], handle);
    }
  }

  /** A tag is resolved to what it stands for, or refused. */
  lemma {:induction false} Resolves(tags: seq<TagDirective>, props: Props)
    ensures ResolveTag(tags, props.tag) == if TagStands(tags, props.tag) then Some(TagOf(tags, props)) else None
  {
    if props.tag.Some? && props.tag.value.handle != "" {
      var handle := props.tag.value.handle;
      if i :| FirstNaming(tags, handle, i) {
        forall j | FirstNaming(tags, handle, j) ensures FindPrefix(tags, handle) == Some(tags[j].prefix) {
          PrefixFound(tags, handle, j);
        }
        assert FirstNaming(tags, handle, i);
      } else {
        PrefixMissing(tags, handle);
      }
    }
  }

  /**
   A scalar token, with an anchor and a tag in front of it or not, becomes one event: its value
   and style are the token's, and the two marks say whether the tag may be left out, of a plain
   scalar and of a quoted one.
   */
  lemma {:induction false} ScalarTokenEvent(p: PState, props: Props, value: string, style: ScalarStyle, k: seq<Token>,
                                            block: bool, indentless: bool)
    requires p.tokens == PropTokens(props, [ScalarT(value, style)] + k) && p.states != []
    ensures var tag := TagOf(p.tags, props);
            ParseNode(p, block, indentless)
            == if !TagStands(p.tags, props.tag) then Fail(UndefinedTagHandle)
               else Emit(Scalar(props.anchor, tag, value, (tag == "" && style == Plain) || tag == "!",
                                tag == "" && style != Plain, style),
                         PopTo(p).(tokens := k))
  {
    var q := p.(tokens := [ScalarT(value, style)] + k);
    PropertiesRead(props, p, q.tokens);
    Resolves(p.tags, props);
    SkipHead(PopTo(q), ScalarT(value, style), k);
  }

  lemma {:induction false} NodeParses(t: Tree, w: Where, p: PState, rest: seq<Token>, k: seq<Event>, g: Goal)
    requires Derives(t, w) && p.tokens == Tokens(t, rest) && Follows(rest, w.indentless) && p.states != []
    requires g.strict || Exact(t, p.tags)
    ensures From(ParseNode(p, w.block, w.indentless), Events(t, p.tags, k), g)
            <==> Exact(t, p.tags) && Meets(PopTo(p).(tokens := rest), k, g)
    decreases t, 0
  {
    match t
    case AliasTree(name) =>
      SkipHead(p, AliasT(name), rest);
      EmitThen(Alias(name), Skip(PopTo(p)), k, g);
    case NodeTree(props, c) =>
      ContentHead(c, w, rest);
      var q := p.(tokens := ContentTokens(c, rest));
      PropertiesRead(props, p, q.tokens);
      Resolves(p.tags, props);
      if ResolveTag(p.tags, props.tag).Some? {
        var tag := TagOf(p.tags, props);
        assert PopTo(q).(tokens := rest) == PopTo(p).(tokens := rest);
        ContentParses(c, w, props.anchor, tag, q, rest, k, g);
        assert ParseNode(p, w.block, w.indentless) == ParseContent(q, w.block, w.indentless, props.anchor, tag);
      }
  }

  lemma {:induction false} ContentParses(c: Content, w: Where, anchor: Option<string>, tag: string,
                                         p: PState, rest: seq<Token>, k: seq<Event>, g: Goal)
    requires ContentDerives(c, w) && p.tokens == ContentTokens(c, rest) && p.tokens != []
    requires Follows(rest, w.indentless) && p.states != []
    requires g.strict || (Stands(c, anchor, tag) && ContentExact(c, p.tags))
    ensures From(ParseContent(p, w.block, w.indentless, anchor, tag), ContentEvents(c, anchor, tag, p.tags, k), g)
            <==> Stands(c, anchor, tag) && ContentExact(c, p.tags) && Meets(PopTo(p).(tokens := rest), k, g)
    decreases c, 2
  {
    match c
    case NoContent =>
      EmitThen(Scalar(anchor, tag, "", tag == "", false, Plain), PopTo(p), k, g);
    case ScalarContent(value, style) =>
      SkipHead(p, ScalarT(value, style), rest);
      EmitThen(ScalarEvent(anchor, tag, value, style), Skip(PopTo(p)), k, g);
    case BlockSequence(items) => BlockSequenceParses(c, w, anchor, tag, p, rest, k, g);
    case IndentlessSequence(items) => IndentlessSequenceParses(c, w, anchor, tag, p, rest, k, g);
    case BlockMapping(pairs) => BlockMappingParses(c, w, anchor, tag, p, rest, k, g);
    case FlowSequence(entries, trailing) => FlowSequenceOpens(c, w, anchor, tag, p, rest, k, g);
    case FlowMapping(entries, trailing) => FlowMappingOpens(c, w, anchor, tag, p, rest, k, g);
  }

  lemma {:induction false} BlockSequenceParses(c: Content, w: Where, anchor: Option<string>, tag: string,
                                               p: PState, rest: seq<Token>, k: seq<Event>, g: Goal)
    requires c.BlockSequence? && ContentDerives(c, w)
    requires p.tokens == ContentTokens(c, rest) && p.states != []
    requires g.strict || ContentExact(c, p.tags)
    ensures From(ParseContent(p, w.block, w.indentless, anchor, tag), ContentEvents(c, anchor, tag, p.tags, k), g)
            <==> ContentExact(c, p.tags) && Meets(PopTo(p).(tokens := rest), k, g)
    decreases c, 0
  {
    var s := p.(state := SBlockSequenceFirstEntry);
    var q := Entered(s, BlockSequenceStartT, ItemsTokens(c.items, [BlockEndT] + rest), rest);
    BlockItemsParse(c.items, q, rest, k, g);
    OpenThen(SequenceStart(anchor, tag, tag == "", Block), s, ItemsEvents(c.items, p.tags, [SequenceEnd] + k), g);
  }

  lemma {:induction false} IndentlessSequenceParses(c: Content, w: Where, anchor: Option<string>, tag: string,
                                                    p: PState, rest: seq<Token>, k: seq<Event>, g: Goal)
    requires c.IndentlessSequence? && ContentDerives(c, w)
    requires p.tokens == ContentTokens(c, rest) && p.tokens != [] && p.states != [] && rest != []
             && EndsBlockPart(rest[0])
    requires g.strict || ContentExact(c, p.tags)
    ensures From(ParseContent(p, w.block, w.indentless, anchor, tag), ContentEvents(c, anchor, tag, p.tags, k), g)
            <==> ContentExact(c, p.tags) && Meets(PopTo(p).(tokens := rest), k, g)
    decreases c, 0
  {
    var s := p.(state := SIndentlessSequenceEntry);
    assert PopTo(s).(tokens := rest) == PopTo(p).(tokens := rest);
    IndentlessItemsParse(c.items, s, rest, k, g);
    OpenThen(SequenceStart(anchor, tag, tag == "", Block), s, ItemsEvents(c.items, p.tags, [SequenceEnd] + k), g);
  }

  lemma {:induction false} BlockMappingStarts(c: Content, w: Where, anchor: Option<string>, tag: string, p: PState,
                                              rest: seq<Token>)
    requires c.BlockMapping? && ContentDerives(c, w) && p.tokens == ContentTokens(c, rest)
    ensures ParseContent(p, w.block, w.indentless, anchor, tag)
            == Emit(MappingStart(anchor, tag, tag == "", Block), p.(state := SBlockMappingFirstKey))
  {
  }

  lemma {:induction false} BlockMappingParses(c: Content, w: Where, anchor: Option<string>, tag: string,
                                              p: PState, rest: seq<Token>, k: seq<Event>, g: Goal)
    requires c.BlockMapping? && ContentDerives(c, w)
    requires p.tokens == ContentTokens(c, rest) && p.states != []
    requires g.strict || ContentExact(c, p.tags)
    ensures From(ParseContent(p, w.block, w.indentless, anchor, tag), ContentEvents(c, anchor, tag, p.tags, k), g)
            <==> ContentExact(c, p.tags) && Meets(PopTo(p).(tokens := rest), k, g)
    decreases c, 1
  {
    var s := p.(state := SBlockMappingFirstKey);
    BlockMappingInside(c, w, s, rest, k, g);
    BlockMappingStarts(c, w, anchor, tag, p, rest);
    OpenThen(MappingStart(anchor, tag, tag == "", Block), s, PairsEvents(c.pairs, p.tags, [MappingEnd] + k), g);
  }

  lemma {:induction false} BlockMappingInside(c: Content, w: Where, s: PState, rest: seq<Token>, k: seq<Event>, g: Goal)
    requires c.BlockMapping? && ContentDerives(c, w) && s.state == SBlockMappingFirstKey
    requires s.tokens == ContentTokens(c, rest) && s.states != []
    requires g.strict || ContentExact(c, s.tags)
    ensures From(Step(s), PairsEvents(c.pairs, s.tags, [MappingEnd] + k), g)
            <==> ContentExact(c, s.tags) && Meets(PopTo(s).(tokens := rest), k, g)
    decreases c, 0
  {
    var q := Entered(s, BlockMappingStartT, PairsTokens(c.pairs, [BlockEndT] + rest), rest);
    BlockPairsParse(c.pairs, q, rest, k, g);
  }

  lemma {:induction false} FlowStarts(c: Content, block: bool, indentless: bool, anchor: Option<string>, tag: string,
                                      p: PState, rest: seq<Token>)
    requires c.FlowSequence? || c.FlowMapping?
    requires p.tokens == ContentTokens(c, rest)
    ensures ParseContent(p, block, indentless, anchor, tag)
            == if c.FlowSequence?
               then Emit(SequenceStart(anchor, tag, tag == "", Flow), p.(state := SFlowSequenceFirstEntry))
               else Emit(MappingStart(anchor, tag, tag == "", Flow), p.(state := SFlowMappingFirstKey))
  {
  }

  lemma {:induction false} FlowSequenceOpens(c: Content, w: Where, anchor: Option<string>, tag: string,
                                             p: PState, rest: seq<Token>, k: seq<Event>, g: Goal)
    requires c.FlowSequence? && ContentDerives(c, w)
    requires p.tokens == ContentTokens(c, rest) && p.states != []
    requires g.strict || ContentExact(c, p.tags)
    ensures From(ParseContent(p, w.block, w.indentless, anchor, tag), ContentEvents(c, anchor, tag, p.tags, k), g)
            <==> ContentExact(c, p.tags) && Meets(PopTo(p).(tokens := rest), k, g)
    decreases c, 1
  {
    var s := p.(state := SFlowSequenceFirstEntry);
    FlowStarts(c, w.block, w.indentless, anchor, tag, p, rest);
    FlowSequenceInside(c, w, s, rest, k, g);
    OpenThen(SequenceStart(anchor, tag, tag == "", Flow), s,
             SequenceEntriesEvents(c.entries, p.tags, [SequenceEnd] + k), g);
  }

  lemma {:induction false} FlowSequenceInside(c: Content, w: Where, s: PState, rest: seq<Token>, k: seq<Event>, g: Goal)
    requires c.FlowSequence? && ContentDerives(c, w) && s.state == SFlowSequenceFirstEntry
    requires s.tokens == ContentTokens(c, rest) && s.states != []
    requires g.strict || ContentExact(c, s.tags)
    ensures From(Step(s), SequenceEntriesEvents(c.entries, s.tags, [SequenceEnd] + k), g)
            <==> ContentExact(c, s.tags) && Meets(PopTo(s).(tokens := rest), k, g)
    decreases c, 0
  {
    var body := EntriesTokens(c.entries, c.trailingComma, [FlowSequenceEndT] + rest);
    var q := Entered(s, FlowSequenceStartT, body, rest);
    FlowSequenceParses(c.entries, c.trailingComma, q, rest, k, g);
  }

  lemma {:induction false} FlowMappingOpens(c: Content, w: Where, anchor: Option<string>, tag: string,
                                            p: PState, rest: seq<Token>, k: seq<Event>, g: Goal)
    requires c.FlowMapping? && ContentDerives(c, w)
    requires p.tokens == ContentTokens(c, rest) && p.states != []
    requires g.strict || ContentExact(c, p.tags)
    ensures From(ParseContent(p, w.block, w.indentless, anchor, tag), ContentEvents(c, anchor, tag, p.tags, k), g)
            <==> ContentExact(c, p.tags) && Meets(PopTo(p).(tokens := rest), k, g)
    decreases c, 1
  {
    var s := p.(state := SFlowMappingFirstKey);
    FlowStarts(c, w.block, w.indentless, anchor, tag, p, rest);
    FlowMappingInside(c, w, s, rest, k, g);
    OpenThen(MappingStart(anchor, tag, tag == "", Flow), s,
             MappingEntriesEvents(c.entries, p.tags, [MappingEnd] + k), g);
  }

  lemma {:induction false} FlowMappingInside(c: Content, w: Where, s: PState, rest: seq<Token>, k: seq<Event>, g: Goal)
    requires c.FlowMapping? && ContentDerives(c, w) && s.state == SFlowMappingFirstKey
    requires s.tokens == ContentTokens(c, rest) && s.states != []
    requires g.strict || ContentExact(c, s.tags)
    ensures From(Step(s), MappingEntriesEvents(c.entries, s.tags, [MappingEnd] + k), g)
            <==> ContentExact(c, s.tags) && Meets(PopTo(s).(tokens := rest), k, g)
    decreases c, 0
  {
    var body := EntriesTokens(c.entries, c.trailingComma, [FlowMappingEndT] + rest);
    var q := Entered(s, FlowMappingStartT, body, rest);
    FlowMappingParses(c.entries, c.trailingComma, q, rest, k, g);
  }

  /** The state after a collection whose mark is on the stack has been closed. */
  function Closed(p: PState, rest: seq<Token>): PState
    requires p.states != [] && p.marks != []
  {
    PopTo(p).(marks := p.marks[..|p.marks| - 1], tokens := rest)
  }

  lemma {:induction false} Entered(p: PState, t: Token, body: seq<Token>, rest: seq<Token>) returns (q: PState)
    requires p.tokens == [t] + body && p.states != []
    ensures Enter(p) == Some(q) && q.tokens == body && q.tags == p.tags
    ensures q.states != [] && q.marks != [] && Closed(q, rest) == PopTo(p).(tokens := rest)
  {
    q := Enter(p).value;
    SkipHead(p, t, body);
    assert q.marks[..|q.marks| - 1] == p.marks;
    assert Closed(q, rest) == PopTo(p).(tokens := rest);
  }

  lemma {:induction false} CloseParses(p: PState, end: Token, e: Event, rest: seq<Token>, k: seq<Event>, g: Goal)
    requires p.tokens == [end] + rest && p.states != [] && p.marks != []
    ensures From(EmitClose(p, e), [e] + k, g)
            <==> Meets(Closed(p, rest), k, g)
  {
    SkipHead(p, end, rest);
    EmitThen(e, Closed(p, rest), k, g);
  }

  /** How the parser treats a position where node `t` stands, `s` being the state after it. */
  function Member(t: Tree, w: Where, p: PState, s: State): Outcome {
    if t.Omitted? then EmitEmpty(p, s) else ParseNode(Push(p, s), w.block, w.indentless)
  }

  /** A member node parsed behind return state `s`, or emitted as empty where it is omitted. */
  lemma {:induction false} MemberParses(t: Tree, w: Where, p: PState, s: State, rest: seq<Token>, k: seq<Event>,
                                        g: Goal)
    requires DerivesOptional(t, w) && p.tokens == Tokens(t, rest) && Follows(rest, w.indentless)
    requires g.strict || Exact(t, p.tags)
    ensures From(Member(t, w, p, s), Events(t, p.tags, k), g)
            <==> Exact(t, p.tags) && Meets(p.(state := s, tokens := rest), k, g)
    decreases t, 1
  {
    if t.Omitted? {
      EmitThen(EmptyScalar, p.(state := s), k, g);
    } else {
      PopPushed(p, s);
      NodeParses(t, w, Push(p, s), rest, k, g);
    }
  }

  // ---------- block collections ----------

  lemma {:induction false} BlockItemsParse(items: seq<Tree>, p: PState, rest: seq<Token>, k: seq<Event>, g: Goal)
    requires forall i :: 0 <= i < |items| ==> DerivesOptional(items[i], InSequence)
    requires p.tokens == ItemsTokens(items, [BlockEndT] + rest) && p.states != [] && p.marks != []
    requires g.strict || ItemsExact(items, p.tags)
    ensures From(ParseBlockSequenceEntry(p), ItemsEvents(items, p.tags, [SequenceEnd] + k), g)
            <==> ItemsExact(items, p.tags) && Meets(Closed(p, rest), k, g)
    decreases items
  {
    if items == [] {
      CloseParses(p, BlockEndT, SequenceEnd, rest, k, g);
    } else {
      var more := ItemsTokens(items[1..], [BlockEndT] + rest);
      var events := ItemsEvents(items[1..], p.tags, [SequenceEnd] + k);
      var next := p.(state := SBlockSequenceEntry, tokens := more);
      assert Meets(next, events, g) <==> ItemsExact(items[1..], p.tags) && Meets(Closed(p, rest), k, g) by {
        assert Closed(next, rest) == Closed(p, rest);
        BlockItemsParse(items[1..], next, rest, k, g);
        StepThen(next, events, g);
      }
      ItemsHead(items[1..], [BlockEndT] + rest);
      BlockItemParses(items[0], p, more, events, g);
    }
  }

  lemma {:induction false} BlockItemParses(t: Tree, p: PState, rest: seq<Token>, k: seq<Event>, g: Goal)
    requires DerivesOptional(t, InSequence) && p.tokens == [BlockEntryT] + Tokens(t, rest)
    requires rest != [] && (rest[0].BlockEntryT? || rest[0].BlockEndT?)
    requires g.strict || Exact(t, p.tags)
    ensures From(ParseBlockSequenceEntry(p), Events(t, p.tags, k), g)
            <==> Exact(t, p.tags) && Meets(p.(state := SBlockSequenceEntry, tokens := rest), k, g)
    decreases t, 2
  {
    var q := p.(tokens := Tokens(t, rest));
    SkipHead(p, BlockEntryT, q.tokens);
    if !t.Omitted? {
      NodeHead(t, InSequence, rest);
    }
    assert ParseBlockSequenceEntry(p) == Member(t, InSequence, q, SBlockSequenceEntry);
    MemberParses(t, InSequence, q, SBlockSequenceEntry, rest, k, g);
  }

  lemma ItemsHead(items: seq<Tree>, k: seq<Token>)
    requires k != []
    ensures ItemsTokens(items, k) != [] && (ItemsTokens(items, k)[0] == if items == [] then k[0] else BlockEntryT)
  {
  }

  lemma {:induction false} IndentlessItemsParse(items: seq<Tree>, p: PState, rest: seq<Token>, k: seq<Event>, g: Goal)
    requires forall i :: 0 <= i < |items| ==> DerivesOptional(items[i], InSequence)
    requires p.tokens == ItemsTokens(items, rest) && p.states != [] && rest != [] && EndsBlockPart(rest[0])
    requires items == [] || p.state == SIndentlessSequenceEntry
    requires g.strict || ItemsExact(items, p.tags)
    ensures From(ParseIndentlessSequenceEntry(p), ItemsEvents(items, p.tags, [SequenceEnd] + k), g)
            <==> ItemsExact(items, p.tags) && Meets(PopTo(p).(tokens := rest), k, g)
    decreases items
  {
    if items == [] {
      EmitThen(SequenceEnd, PopTo(p), k, g);
    } else {
      var more := ItemsTokens(items[1..], rest);
      var events := ItemsEvents(items[1..], p.tags, [SequenceEnd] + k);
      var next := p.(state := SIndentlessSequenceEntry, tokens := more);
      assert Meets(next, events, g) <==> ItemsExact(items[1..], p.tags) && Meets(PopTo(p).(tokens := rest), k, g) by {
        assert PopTo(next).(tokens := rest) == PopTo(p).(tokens := rest);
        IndentlessItemsParse(items[1..], next, rest, k, g);
        StepThen(next, events, g);
      }
      ItemsHead(items[1..], rest);
      IndentlessItemParses(items[0], p, more, events, g);
    }
  }

  lemma {:induction false} IndentlessItemParses(t: Tree, p: PState, rest: seq<Token>, k: seq<Event>, g: Goal)
    requires DerivesOptional(t, InSequence) && p.tokens == [BlockEntryT] + Tokens(t, rest)
    requires rest != [] && (rest[0].BlockEntryT? || EndsBlockPart(rest[0]))
    requires g.strict || Exact(t, p.tags)
    ensures From(ParseIndentlessSequenceEntry(p), Events(t, p.tags, k), g)
            <==> Exact(t, p.tags) && Meets(p.(state := SIndentlessSequenceEntry, tokens := rest), k, g)
    decreases t, 2
  {
    var q := p.(tokens := Tokens(t, rest));
    SkipHead(p, BlockEntryT, q.tokens);
    if !t.Omitted? {
      NodeHead(t, InSequence, rest);
    }
    assert ParseIndentlessSequenceEntry(p) == Member(t, InSequence, q, SIndentlessSequenceEntry);
    MemberParses(t, InSequence, q, SIndentlessSequenceEntry, rest, k, g);
  }

  /** The VALUE part of a block pair, from the state that expects it. */
  lemma {:induction false} BlockValueParses(value: Option<Tree>, p: PState, rest: seq<Token>, k: seq<Event>, g: Goal)
    requires value.Some? ==> DerivesOptional(value.value, InMapping)
    requires p.tokens == ValueTokens(value, rest)
    requires rest != [] && EndsBlockPart(rest[0]) && (value.None? ==> !rest[0].ValueT?)
    requires g.strict || ValueExact(value, p.tags)
    ensures From(ParseBlockMappingValue(p), ValueEvents(value, p.tags, k), g)
            <==> ValueExact(value, p.tags) && Meets(p.(state := SBlockMappingKey, tokens := rest), k, g)
    decreases value, 0
  {
    if value.None? {
      EmitThen(EmptyScalar, p.(state := SBlockMappingKey), k, g);
    } else {
      BlockValueDispatch(value.value, p, rest);
      MemberParses(value.value, InMapping, p.(tokens := Tokens(value.value, rest)), SBlockMappingKey, rest, k, g);
    }
  }

  lemma {:induction false} BlockValueDispatch(value: Tree, p: PState, rest: seq<Token>)
    requires DerivesOptional(value, InMapping) && p.tokens == [ValueT] + Tokens(value, rest)
    requires rest != [] && EndsBlockPart(rest[0])
    ensures ParseBlockMappingValue(p) == Member(value, InMapping, p.(tokens := Tokens(value, rest)), SBlockMappingKey)
  {
    SkipHead(p, ValueT, Tokens(value, rest));
    if !value.Omitted? {
      NodeHead(value, InMapping, rest);
    }
  }

  lemma {:induction false} BlockValueReached(value: Option<Tree>, q: PState, rest: seq<Token>, k: seq<Event>, g: Goal)
    requires value.Some? ==> DerivesOptional(value.value, InMapping)
    requires q.tokens == ValueTokens(value, rest) && q.state == SBlockMappingValue
    requires rest != [] && EndsBlockPart(rest[0]) && (value.None? ==> !rest[0].ValueT?)
    requires g.strict || ValueExact(value, q.tags)
    ensures Meets(q, ValueEvents(value, q.tags, k), g)
            <==> ValueExact(value, q.tags) && Meets(q.(state := SBlockMappingKey, tokens := rest), k, g)
    decreases value, 1
  {
    BlockValueParses(value, q, rest, k, g);
    StepThen(q, ValueEvents(value, q.tags, k), g);
  }

  lemma {:induction false} KeyFirst(pairs: seq<BlockPair>, tags: seq<TagDirective>, t: seq<Token>, k: seq<Event>)
    requires pairs != [] && pairs[0].WithKey? && BlockPairDerives(pairs[0])
    ensures var Pair(key, value) := pairs[0].pair;
            && PairsTokens(pairs, t) == [KeyT] + Tokens(key, ValueTokens(value, PairsTokens(pairs[1..], t)))
            && PairsEvents(pairs, tags, k)
               == Events(key, tags, ValueEvents(value, tags, PairsEvents(pairs[1..], tags, k)))
            && DerivesOptional(key, InMapping) && (value.Some? ==> DerivesOptional(value.value, InMapping))
    ensures pairs[0].pair.key < pairs[0]
  {
    var more := PairsTokens(pairs[1..], t);
    var WithKey(pair) := pairs[0];
    var Pair(key, value) := pair;
    var later := PairsEvents(pairs[1..], tags, k);
    assert BlockPairTokens(pairs[0], more) == PairTokens(pair, more);
    assert BlockPairEvents(pairs[0], tags, later) == PairEvents(pair, tags, later);
    assert PairDerives(pair, InMapping);
    assert key < pair < pairs[0];
  }

  lemma {:induction false} ValueFirst(pairs: seq<BlockPair>, tags: seq<TagDirective>, t: seq<Token>, k: seq<Event>)
    requires pairs != [] && pairs[0].ValueOnly? && BlockPairDerives(pairs[0])
    ensures var value := pairs[0].value;
            && PairsTokens(pairs, t) == [ValueT] + Tokens(value, PairsTokens(pairs[1..], t))
            && PairsEvents(pairs, tags, k) == [EmptyScalar] + Events(value, tags, PairsEvents(pairs[1..], tags, k))
            && DerivesOptional(value, InMapping)
  {
  }

  lemma {:induction false} PairsHead(pairs: seq<BlockPair>, k: seq<Token>)
    requires forall i :: 0 <= i < |pairs| ==> BlockPairDerives(pairs[i])
    ensures var t := PairsTokens(pairs, [BlockEndT] + k);
            t != [] && t[0] == (if pairs == [] then BlockEndT else if pairs[0].WithKey? then KeyT else ValueT)
  {
    if pairs != [] {
      assert BlockPairDerives(pairs[0]);
      if pairs[0].WithKey? {
        KeyFirst(pairs, [], [BlockEndT] + k, []);
      } else {
        ValueFirst(pairs, [], [BlockEndT] + k, []);
      }
    }
  }

  lemma {:induction false} BlockPairsParse(pairs: seq<BlockPair>, p: PState, rest: seq<Token>, k: seq<Event>, g: Goal)
    requires forall i :: 0 <= i < |pairs| ==> BlockPairDerives(pairs[i])
    requires p.tokens == PairsTokens(pairs, [BlockEndT] + rest) && p.states != [] && p.marks != []
    requires g.strict || PairsExact(pairs, p.tags)
    ensures From(ParseBlockMappingKey(p), PairsEvents(pairs, p.tags, [MappingEnd] + k), g)
            <==> PairsExact(pairs, p.tags) && Meets(Closed(p, rest), k, g)
    decreases pairs, 2
  {
    if pairs == [] {
      CloseParses(p, BlockEndT, MappingEnd, rest, k, g);
    } else if pairs[0].WithKey? {
      assert BlockPairDerives(pairs[0]);
      PairsHead(pairs[1..], rest);
      if pairs[0].pair.value.None? && |pairs| > 1 && pairs[1].ValueOnly? {
        assert !BlockPairExact(pairs[1..][0], p.tags) && !PairsExact(pairs[1..], p.tags);
        ValueMisread(pairs, p, rest, k, g);
      } else {
        var more := PairsTokens(pairs[1..], [BlockEndT] + rest);
        var events := PairsEvents(pairs[1..], p.tags, [MappingEnd] + k);
        var next := p.(state := SBlockMappingKey, tokens := more);
        assert Meets(next, events, g) <==> PairsExact(pairs[1..], p.tags) && Meets(Closed(p, rest), k, g) by {
          assert Closed(next, rest) == Closed(p, rest);
          BlockPairsParse(pairs[1..], next, rest, k, g);
          StepThen(next, events, g);
        }
        BlockPairParses(pairs[0], p, more, events, g);
      }
    } else {
      assert BlockPairDerives(pairs[0]);
      ValueFirst(pairs, p.tags, [BlockEndT] + rest, [MappingEnd] + k);
      KeyMissing(p);
    }
  }

  /** Where a pair is due, a VALUE token is an error. */
  lemma {:induction false} KeyMissing(p: PState)
    requires p.tokens != [] && p.tokens[0].ValueT? && p.marks != []
    ensures ParseBlockMappingKey(p) == Fail(ExpectedKey(LastMark(p)))
  {
  }

  lemma {:induction false} BlockKeyDispatch(key: Tree, p: PState, rest: seq<Token>)
    requires DerivesOptional(key, InMapping) && p.tokens == [KeyT] + Tokens(key, rest)
    requires rest != [] && EndsBlockPart(rest[0])
    ensures ParseBlockMappingKey(p) == Member(key, InMapping, p.(tokens := Tokens(key, rest)), SBlockMappingValue)
  {
    SkipHead(p, KeyT, Tokens(key, rest));
    if !key.Omitted? {
      NodeHead(key, InMapping, rest);
    }
  }

  lemma {:induction false} BlockPairParses(pair: BlockPair, p: PState, rest: seq<Token>, k: seq<Event>, g: Goal)
    requires BlockPairDerives(pair) && pair.WithKey? && p.tokens == BlockPairTokens(pair, rest)
    requires rest != [] && EndsBlockPart(rest[0]) && (pair.pair.value.None? ==> !rest[0].ValueT?)
    requires g.strict || BlockPairExact(pair, p.tags)
    ensures From(ParseBlockMappingKey(p), BlockPairEvents(pair, p.tags, k), g)
            <==> BlockPairExact(pair, p.tags) && Meets(p.(state := SBlockMappingKey, tokens := rest), k, g)
    decreases pair
  {
    var WithKey(Pair(key, value)) := pair;
    var tail := ValueTokens(value, rest);
    var valueState := p.(state := SBlockMappingValue, tokens := tail);
    var events := ValueEvents(value, p.tags, k);
    BlockValueReached(value, valueState, rest, k, g);
    MemberParses(key, InMapping, p.(tokens := Tokens(key, tail)), SBlockMappingValue, tail, events, g);
    BlockKeyDispatch(key, p, tail);
  }

  // ---------- block pairs without a KEY ----------

  /** `n` empty scalars, and then `k`. */
  function Empties(n: nat, k: seq<Event>): (r: seq<Event>)
    ensures n > 0 ==> r != [] && r[0] == EmptyScalar
  {
    if n == 0 then k else [EmptyScalar] + Empties(n - 1, k)
  }

  lemma {:induction false} EmptiesMore(n: nat, k: seq<Event>)
    ensures Empties(n, [EmptyScalar] + k) == [EmptyScalar] + Empties(n, k)
  {
    if n > 0 {
      EmptiesMore(n - 1, k);
    }
  }

  /** The content of a node after one empty scalar too many. */
  lemma {:induction false} ContentAfterEmpties(c: Content, w: Where, anchor: Option<string>, tag: string, p: PState,
                                               rest: seq<Token>, n: nat, k: seq<Event>, g: Goal)
    requires ContentDerives(c, w) && p.tokens == ContentTokens(c, rest) && p.tokens != []
    requires Follows(rest, w.indentless) && p.states != []
    requires n > 0 && !Meets(PopTo(p).(tokens := rest), Empties(n, k), g)
    ensures !From(ParseContent(p, w.block, w.indentless, anchor, tag),
                  Empties(n, ContentEvents(c, anchor, tag, p.tags, k)), g)
  {
    match c {
      case ScalarContent(value, style) =>
        SkipHead(p, ScalarT(value, style), rest);
        if ScalarEvent(anchor, tag, value, style) == EmptyScalar {
          EmptiesMore(n, k);
          EmitThen(EmptyScalar, Skip(PopTo(p)), Empties(n, k), g);
        }
      case _ =>
    }
  }

  /**
   One empty scalar too many before a member node: if the parser goes on, the member is an empty
   scalar itself, and as many as before are left.
   */
  lemma {:induction false} MemberAfterEmpties(t: Tree, w: Where, p: PState, s: State, rest: seq<Token>,
                                              n: nat, k: seq<Event>, g: Goal)
    requires DerivesOptional(t, w) && p.tokens == Tokens(t, rest) && Follows(rest, w.indentless)
    requires n > 0 && !Meets(p.(state := s, tokens := rest), Empties(n, k), g)
    ensures !From(Member(t, w, p, s), Empties(n, Events(t, p.tags, k)), g)
  {
    match t
    case Omitted =>
      EmptiesMore(n, k);
      EmitThen(EmptyScalar, p.(state := s), Empties(n, k), g);
    case AliasTree(_) =>
    case NodeTree(props, c) =>
      ContentHead(c, w, rest);
      var q := Push(p, s).(tokens := ContentTokens(c, rest));
      PropertiesRead(props, Push(p, s), q.tokens);
      PopPushed(p, s);
      Resolves(p.tags, props);
      if ResolveTag(p.tags, props.tag).Some? {
        var tag := TagOf(p.tags, props);
        ContentAfterEmpties(c, w, props.anchor, tag, q, rest, n, k, g);
        assert ParseNode(Push(p, s), w.block, w.indentless)
               == ParseContent(q, w.block, w.indentless, props.anchor, tag);
      }
  }

  /** Pairs that should come after empty scalars the parser has no tokens for. */
  lemma {:induction false} PairsAfterEmpties(pairs: seq<BlockPair>, p: PState, rest: seq<Token>, n: nat, k: seq<Event>,
                                             g: Goal)
    requires forall i :: 0 <= i < |pairs| ==> BlockPairDerives(pairs[i])
    requires p.tokens == PairsTokens(pairs, [BlockEndT] + rest) && p.state == SBlockMappingKey && p.marks != []
    requires n > 0
    ensures !Meets(p, Empties(n, PairsEvents(pairs, p.tags, [MappingEnd] + k)), g)
    decreases pairs, 1
  {
    var all := Empties(n, PairsEvents(pairs, p.tags, [MappingEnd] + k));
    StepThen(p, all, g);
    if pairs != [] {
      assert BlockPairDerives(pairs[0]);
      if pairs[0].WithKey? {
        FirstAfterEmpties(pairs, p, rest, n, k, g);
      } else {
        ValueFirst(pairs, p.tags, [BlockEndT] + rest, [MappingEnd] + k);
        KeyMissing(p);
      }
    }
  }

  lemma {:induction false} FirstAfterEmpties(pairs: seq<BlockPair>, p: PState, rest: seq<Token>, n: nat, k: seq<Event>,
                                             g: Goal)
    requires pairs != [] && pairs[0].WithKey? && forall i :: 0 <= i < |pairs| ==> BlockPairDerives(pairs[i])
    requires p.tokens == PairsTokens(pairs, [BlockEndT] + rest) && p.state == SBlockMappingKey && p.marks != []
    requires n > 0
    ensures !From(ParseBlockMappingKey(p), Empties(n, PairsEvents(pairs, p.tags, [MappingEnd] + k)), g)
    decreases pairs, 0
  {
    assert BlockPairDerives(pairs[0]);
    KeyFirst(pairs, p.tags, [BlockEndT] + rest, [MappingEnd] + k);
    var Pair(key, value) := pairs[0].pair;
    var more := PairsTokens(pairs[1..], [BlockEndT] + rest);
    var tail := ValueTokens(value, more);
    var events := ValueEvents(value, p.tags, PairsEvents(pairs[1..], p.tags, [MappingEnd] + k));
    PairsHead(pairs[1..], rest);
    assert tail != [] && EndsBlockPart(tail[0]);
    ValueAfterEmpties(value, pairs[1..], p.(state := SBlockMappingValue, tokens := tail), rest, n, k, g);
    MemberAfterEmpties(key, InMapping, p.(tokens := Tokens(key, tail)), SBlockMappingValue, tail, n, events, g);
    BlockKeyDispatch(key, p, tail);
  }

  lemma {:induction false} ValueAfterEmpties(value: Option<Tree>, pairs: seq<BlockPair>, p: PState, rest: seq<Token>,
                                             n: nat, k: seq<Event>, g: Goal)
    requires value.Some? ==> DerivesOptional(value.value, InMapping)
    requires forall i :: 0 <= i < |pairs| ==> BlockPairDerives(pairs[i])
    requires p.tokens == ValueTokens(value, PairsTokens(pairs, [BlockEndT] + rest))
    requires p.state == SBlockMappingValue && p.marks != [] && n > 0
    ensures !Meets(p, Empties(n, ValueEvents(value, p.tags, PairsEvents(pairs, p.tags, [MappingEnd] + k))), g)
    decreases pairs, 3
  {
    var more, events := PairsTokens(pairs, [BlockEndT] + rest), PairsEvents(pairs, p.tags, [MappingEnd] + k);
    PairsHead(pairs, rest);
    if value.Some? {
      TakenAfterEmpties(value.value, pairs, p, rest, n, k, g);
    } else if pairs != [] && pairs[0].ValueOnly? {
      assert BlockPairDerives(pairs[0]);
      ValueFirst(pairs, p.tags, [BlockEndT] + rest, [MappingEnd] + k);
      var later := PairsEvents(pairs[1..], p.tags, [MappingEnd] + k);
      TakenAfterEmpties(pairs[0].value, pairs[1..], p, rest, n + 2, k, g);
      EmptiesMore(n, [EmptyScalar] + Events(pairs[0].value, p.tags, later));
      EmptiesMore(n, Events(pairs[0].value, p.tags, later));
      assert Empties(n + 1, Events(pairs[0].value, p.tags, later))
             == [EmptyScalar] + Empties(n, Events(pairs[0].value, p.tags, later));
    } else {
      PairsAfterEmpties(pairs, p.(state := SBlockMappingKey), rest, n, k, g);
      EmptiesMore(n, events);
      EmitThen(EmptyScalar, p.(state := SBlockMappingKey), Empties(n, events), g);
      StepThen(p, [EmptyScalar] + Empties(n, events), g);
    }
  }

  /** The parser takes a VALUE for the pair it is in. */
  lemma {:induction false} TakenAfterEmpties(value: Tree, pairs: seq<BlockPair>, p: PState, rest: seq<Token>,
                                             n: nat, k: seq<Event>, g: Goal)
    requires DerivesOptional(value, InMapping)
    requires forall i :: 0 <= i < |pairs| ==> BlockPairDerives(pairs[i])
    requires p.tokens == [ValueT] + Tokens(value, PairsTokens(pairs, [BlockEndT] + rest))
    requires p.state == SBlockMappingValue && p.marks != [] && n > 0
    ensures !Meets(p, Empties(n, Events(value, p.tags, PairsEvents(pairs, p.tags, [MappingEnd] + k))), g)
    decreases pairs, 2
  {
    var more, events := PairsTokens(pairs, [BlockEndT] + rest), PairsEvents(pairs, p.tags, [MappingEnd] + k);
    PairsHead(pairs, rest);
    var q := p.(tokens := Tokens(value, more));
    PairsAfterEmpties(pairs, p.(state := SBlockMappingKey, tokens := more), rest, n, k, g);
    MemberAfterEmpties(value, InMapping, q, SBlockMappingKey, more, n, events, g);
    BlockValueDispatch(value, p, more);
    StepThen(p, Empties(n, Events(value, p.tags, events)), g);
  }

  /** KEY without a VALUE, and then a VALUE without a KEY: read as one pair, which leaves two empty scalars unsaid. */
  lemma {:induction false} ValueMisread(pairs: seq<BlockPair>, p: PState, rest: seq<Token>, k: seq<Event>, g: Goal)
    requires forall i :: 0 <= i < |pairs| ==> BlockPairDerives(pairs[i])
    requires |pairs| > 1 && pairs[0].WithKey? && pairs[0].pair.value.None? && pairs[1].ValueOnly?
    requires p.tokens == PairsTokens(pairs, [BlockEndT] + rest) && p.marks != []
    requires g.strict || Exact(pairs[0].pair.key, p.tags)
    ensures !From(ParseBlockMappingKey(p), PairsEvents(pairs, p.tags, [MappingEnd] + k), g)
    decreases pairs, 1
  {
    assert BlockPairDerives(pairs[0]) && BlockPairDerives(pairs[1]);
    var others := pairs[1..];
    KeyFirst(pairs, p.tags, [BlockEndT] + rest, [MappingEnd] + k);
    ValueFirst(others, p.tags, [BlockEndT] + rest, [MappingEnd] + k);
    var key, value, tail := pairs[0].pair.key, others[0].value, PairsTokens(others, [BlockEndT] + rest);
    var later := PairsEvents(others[1..], p.tags, [MappingEnd] + k);
    TakenAfterEmpties(value, others[1..], p.(state := SBlockMappingValue, tokens := tail), rest, 2, k, g);
    var events := [EmptyScalar] + ([EmptyScalar] + Events(value, p.tags, later));
    assert Empties(1, Events(value, p.tags, later)) == [EmptyScalar] + Empties(0, Events(value, p.tags, later));
    assert Empties(2, Events(value, p.tags, later)) == events;
    MemberParses(key, InMapping, p.(tokens := Tokens(key, tail)), SBlockMappingValue, tail, events, g);
    BlockKeyDispatch(key, p, tail);
  }

  // ---------- flow sequences ----------

  /** What can follow a flow entry or a part of one. */
  predicate FlowFollows(k: seq<Token>, end: Token) {
    k != [] && (k[0].FlowEntryT? || k[0] == end)
  }

  lemma {:induction false} SequenceValueParses(value: Option<Tree>, p: PState, rest: seq<Token>, k: seq<Event>, g: Goal)
    requires value.Some? ==> DerivesOptional(value.value, InFlow)
    requires p.tokens == ValueTokens(value, rest)
    requires FlowFollows(rest, FlowSequenceEndT)
    requires g.strict || ValueExact(value, p.tags)
    ensures From(ParseFlowSequenceEntryMappingValue(p),
                 ValueEvents(value, p.tags, k), g)
            <==> ValueExact(value, p.tags) && Meets(p.(state := SFlowSequenceEntryMappingEnd, tokens := rest), k, g)
    decreases value, 0
  {
    if value.None? {
      EmitThen(EmptyScalar, p.(state := SFlowSequenceEntryMappingEnd), k, g);
    } else {
      SkipHead(p, ValueT, Tokens(value.value, rest));
      var s := SFlowSequenceEntryMappingEnd;
      MemberParses(value.value, InFlow, Skip(p), s, rest, k, g);
      assert ParseFlowSequenceEntryMappingValue(p) == Member(value.value, InFlow, Skip(p), s) by {
        if !value.value.Omitted? {
          NodeHead(value.value, InFlow, rest);
        }
      }
    }
  }

  /** `? :` inside a flow sequence: the dropped token is the VALUE itself. */
  lemma {:induction false} OmittedPairParses(p: PState, rest: seq<Token>, k: seq<Event>, g: Goal)
    requires p.tokens == [ValueT] + rest && FlowFollows(rest, FlowSequenceEndT)
    ensures From(ParseFlowSequenceEntryMappingKey(p), [EmptyScalar] + ([EmptyScalar] + k), g)
            <==> Meets(p.(state := SFlowSequenceEntryMappingEnd, tokens := rest), k, g)
  {
    SkipHead(p, ValueT, rest);
    var q := p.(state := SFlowSequenceEntryMappingValue, tokens := rest);
    EmitThen(EmptyScalar, q.(state := SFlowSequenceEntryMappingEnd), k, g);
    OpenThen(EmptyScalar, q, [EmptyScalar] + k, g);
  }

  lemma {:induction false} SequenceKeyDispatch(key: Tree, p: PState, rest: seq<Token>)
    requires Derives(key, InFlow) && p.tokens == Tokens(key, rest)
    requires rest != [] && (rest[0].ValueT? || FlowFollows(rest, FlowSequenceEndT))
    ensures ParseFlowSequenceEntryMappingKey(p) == Member(key, InFlow, p, SFlowSequenceEntryMappingValue)
    ensures !DropsBracket(p)
  {
    NodeHead(key, InFlow, rest);
  }

  lemma {:induction false} SinglePairParses(pair: Pair, p: PState, rest: seq<Token>, k: seq<Event>, g: Goal)
    requires PairDerives(pair, InFlow) && KeyPresent(Keyed(pair))
    requires p.tokens == Tokens(pair.key, ValueTokens(pair.value, rest))
    requires FlowFollows(rest, FlowSequenceEndT)
    requires g.strict || PairExact(pair, p.tags)
    ensures From(ParseFlowSequenceEntryMappingKey(p), PairEvents(pair, p.tags, k), g)
            <==> PairExact(pair, p.tags) && Meets(p.(state := SFlowSequenceEntryMappingEnd, tokens := rest), k, g)
    ensures !DropsBracket(p)
    decreases pair, 0
  {
    var Pair(key, value) := pair;
    if key.Omitted? {
      OmittedPairParses(p, rest, k, g);
    } else {
      var tail := ValueTokens(value, rest);
      var events := ValueEvents(value, p.tags, k);
      SequenceValueReached(value, p.(state := SFlowSequenceEntryMappingValue, tokens := tail), rest, k, g);
      MemberParses(key, InFlow, p, SFlowSequenceEntryMappingValue, tail, events, g);
      SequenceKeyDispatch(key, p, tail);
    }
  }

  lemma {:induction false} SequenceValueReached(value: Option<Tree>, q: PState, rest: seq<Token>, k: seq<Event>,
                                                g: Goal)
    requires value.Some? ==> DerivesOptional(value.value, InFlow)
    requires q.tokens == ValueTokens(value, rest) && q.state == SFlowSequenceEntryMappingValue
    requires FlowFollows(rest, FlowSequenceEndT)
    requires g.strict || ValueExact(value, q.tags)
    ensures Meets(q, ValueEvents(value, q.tags, k), g)
            <==> ValueExact(value, q.tags) && Meets(q.(state := SFlowSequenceEntryMappingEnd, tokens := rest), k, g)
    decreases value, 1
  {
    SequenceValueParses(value, q, rest, k, g);
    StepThen(q, ValueEvents(value, q.tags, k), g);
  }

  lemma {:induction false} SequenceEntryParses(e: Entry, p: PState, rest: seq<Token>, k: seq<Event>, g: Goal)
    requires EntryDerives(e) && KeyPresent(e) && p.tokens == EntryTokens(e, rest) && p.tokens != []
    requires FlowFollows(rest, FlowSequenceEndT)
    requires g.strict || EntryExact(e, p.tags)
    ensures From(ParseFlowSequenceItem(p), SequenceEntryEvents(e, p.tags, k), g)
            <==> EntryExact(e, p.tags) && Meets(p.(state := SFlowSequenceEntry, tokens := rest), k, g)
    decreases e
  {
    match e
    case Single(t) =>
      MemberParses(t, InFlow, p, SFlowSequenceEntry, rest, k, g);
      NodeHead(t, InFlow, rest);
    case Keyed(pair) =>
      KeyedEntryParses(pair, p, rest, k, g);
  }

  /** A single pair: its own one-pair mapping is opened around it, and closed after it. */
  lemma {:induction false} KeyedEntryParses(pair: Pair, p: PState, rest: seq<Token>, k: seq<Event>, g: Goal)
    requires PairDerives(pair, InFlow) && KeyPresent(Keyed(pair)) && p.tokens == PairTokens(pair, rest)
    requires FlowFollows(rest, FlowSequenceEndT)
    requires g.strict || PairExact(pair, p.tags)
    ensures From(ParseFlowSequenceItem(p), SequenceEntryEvents(Keyed(pair), p.tags, k), g)
            <==> PairExact(pair, p.tags) && Meets(p.(state := SFlowSequenceEntry, tokens := rest), k, g)
    decreases pair, 2
  {
    var tokens := Tokens(pair.key, ValueTokens(pair.value, rest));
    SkipHead(p, KeyT, tokens);
    var q := p.(state := SFlowSequenceEntryMappingKey, tokens := tokens);
    PairInside(pair, q, rest, k, g);
    EmitThen(MappingStart(None, "", true, Flow), q, PairEvents(pair, p.tags, [MappingEnd] + k), g);
  }

  lemma {:induction false} PairInside(pair: Pair, q: PState, rest: seq<Token>, k: seq<Event>, g: Goal)
    requires PairDerives(pair, InFlow) && KeyPresent(Keyed(pair))
    requires q.tokens == Tokens(pair.key, ValueTokens(pair.value, rest)) && q.state == SFlowSequenceEntryMappingKey
    requires FlowFollows(rest, FlowSequenceEndT)
    requires g.strict || PairExact(pair, q.tags)
    ensures Meets(q, PairEvents(pair, q.tags, [MappingEnd] + k), g)
            <==> PairExact(pair, q.tags) && Meets(q.(state := SFlowSequenceEntry, tokens := rest), k, g)
    decreases pair, 1
  {
    PairCloses(q, rest, k, g);
    SinglePairParses(pair, q, rest, [MappingEnd] + k, g);
    StepThen(q, PairEvents(pair, q.tags, [MappingEnd] + k), g);
  }

  lemma {:induction false} PairCloses(p: PState, rest: seq<Token>, k: seq<Event>, g: Goal)
    requires rest != []
    ensures Meets(p.(state := SFlowSequenceEntryMappingEnd, tokens := rest), [MappingEnd] + k, g)
            <==> Meets(p.(state := SFlowSequenceEntry, tokens := rest), k, g)
  {
    var end := p.(state := SFlowSequenceEntryMappingEnd, tokens := rest);
    EmitThen(MappingEnd, p.(state := SFlowSequenceEntry, tokens := rest), k, g);
    StepThen(end, [MappingEnd] + k, g);
  }

  lemma {:induction false} EntryNonEmpty(e: Entry, k: seq<Token>)
    requires EntryDerives(e) && Follows(k, false)
    ensures EntryTokens(e, k) != []
    ensures EntryTokens(e, k)[0].KeyT? || StartsNode(EntryTokens(e, k)[0], false)
  {
    if e.Single? {
      NodeHead(e.node, InFlow, k);
    }
  }

  /** Without a VALUE token, the value of a single pair is empty and the pair ends. */
  lemma {:induction false} NoValueCloses(q: PState, k: seq<Event>, g: Goal)
    requires q.state == SFlowSequenceEntryMappingValue && q.tokens != [] && !q.tokens[0].ValueT?
    ensures Meets(q, [EmptyScalar] + ([MappingEnd] + k), g) <==> Meets(q.(state := SFlowSequenceEntry), k, g)
  {
    EmitThen(EmptyScalar, q.(state := SFlowSequenceEntryMappingEnd), [MappingEnd] + k, g);
    StepThen(q, [EmptyScalar] + ([MappingEnd] + k), g);
    PairCloses(q, q.tokens, k, g);
  }

  /** After an entry, nothing but a comma or the closing bracket will do. */
  lemma {:induction false} EntryStuck(q: PState, w: seq<Event>, g: Goal)
    requires q.state == SFlowSequenceEntry && q.tokens != [] && w != []
    requires !q.tokens[0].FlowEntryT? && !q.tokens[0].FlowSequenceEndT?
    ensures !Meets(q, w, g)
  {
  }

  /** The opening of a single pair without a key, and the loss of the token `dropped`. */
  lemma {:induction false} KeyDropped(p: PState, dropped: Token, rest: seq<Token>, w: seq<Event>, g: Goal)
    requires p.tokens == [KeyT] + ([dropped] + rest)
    requires dropped.ValueT? || dropped.FlowEntryT? || dropped.FlowSequenceEndT?
    ensures From(ParseFlowSequenceItem(p), [MappingStart(None, "", true, Flow)] + ([EmptyScalar] + w), g)
            <==> !(g.strict && dropped.FlowSequenceEndT?)
                 && Meets(p.(state := SFlowSequenceEntryMappingValue, tokens := rest), w, g)
  {
    SkipHead(p, KeyT, [dropped] + rest);
    var q := p.(state := SFlowSequenceEntryMappingKey, tokens := [dropped] + rest);
    EmitThen(MappingStart(None, "", true, Flow), q, [EmptyScalar] + w, g);
    SkipHead(q, dropped, rest);
    EmitThen(EmptyScalar, p.(state := SFlowSequenceEntryMappingValue, tokens := rest), w, g);
    if !(g.strict && dropped.FlowSequenceEndT?) {
      StepThen(q, [EmptyScalar] + w, g);
    }
  }

  /** `?` alone, before a comma: the comma is lost. */
  lemma {:induction false} CommaDropped(p: PState, rest: seq<Token>, k: seq<Event>, g: Goal)
    requires p.tokens == [KeyT] + ([FlowEntryT] + rest) && rest != [] && !rest[0].ValueT?
    ensures From(ParseFlowSequenceItem(p), SequenceEntryEvents(Keyed(Pair(Omitted, None)), p.tags, k), g)
            <==> Meets(p.(state := SFlowSequenceEntry, tokens := rest), k, g)
  {
    KeylessEvents(None, p.tags, k);
    KeyDropped(p, FlowEntryT, rest, [EmptyScalar] + ([MappingEnd] + k), g);
    NoValueCloses(p.(state := SFlowSequenceEntryMappingValue, tokens := rest), k, g);
  }

  /** `?` alone, before the closing bracket: the bracket is lost. */
  lemma {:induction false} BracketDropped(p: PState, rest: seq<Token>, k: seq<Event>, g: Goal)
    requires p.tokens == [KeyT] + ([FlowSequenceEndT] + rest) && g.strict
    ensures !From(ParseFlowSequenceItem(p), SequenceEntryEvents(Keyed(Pair(Omitted, None)), p.tags, k), g)
  {
    KeylessEvents(None, p.tags, k);
    KeyDropped(p, FlowSequenceEndT, rest, [EmptyScalar] + ([MappingEnd] + k), g);
  }

  /** `? : x`: the VALUE is lost, and the value `x` cannot follow an entry. */
  lemma {:induction false} ValueDropped(t: Tree, p: PState, rest: seq<Token>, k: seq<Event>, g: Goal)
    requires Derives(t, InFlow) && Follows(rest, false) && k != []
    requires p.tokens == [KeyT] + ([ValueT] + Tokens(t, rest))
    ensures !From(ParseFlowSequenceItem(p), SequenceEntryEvents(Keyed(Pair(Omitted, Some(t))), p.tags, k), g)
  {
    var w := Events(t, p.tags, [MappingEnd] + k);
    KeylessEvents(Some(t), p.tags, k);
    KeyDropped(p, ValueT, Tokens(t, rest), w, g);
    NodeHead(t, InFlow, rest);
    LostValueStuck(t, p.(state := SFlowSequenceEntryMappingValue, tokens := Tokens(t, rest)), k, g);
  }

  lemma {:induction false} KeylessEvents(value: Option<Tree>, tags: seq<TagDirective>, k: seq<Event>)
    ensures SequenceEntryEvents(Keyed(Pair(Omitted, value)), tags, k)
            == [MappingStart(None, "", true, Flow)] + ([EmptyScalar] + ValueEvents(value, tags, [MappingEnd] + k))
  {
    assert PairEvents(Pair(Omitted, value), tags, [MappingEnd] + k)
           == [EmptyScalar] + ValueEvents(value, tags, [MappingEnd] + k);
  }

  lemma {:induction false} LostValueStuck(t: Tree, q: PState, k: seq<Event>, g: Goal)
    requires q.state == SFlowSequenceEntryMappingValue && q.tokens != [] && StartsNode(q.tokens[0], false) && k != []
    ensures !Meets(q, Events(t, q.tags, [MappingEnd] + k), g)
  {
    var w := Events(t, q.tags, [MappingEnd] + k);
    if w[0] == EmptyScalar {
      LeafEvents(t, q.tags, [MappingEnd] + k);
      NoValueCloses(q, k, g);
      EntryStuck(q.(state := SFlowSequenceEntry), k, g);
    } else {
      StepThen(q, w, g);
    }
  }

  lemma {:induction false} LeafEvents(t: Tree, tags: seq<TagDirective>, k: seq<Event>)
    requires Events(t, tags, k)[0].Scalar?
    ensures Events(t, tags, k) == [Events(t, tags, k)[0]] + k
  {
  }

  lemma {:induction false} TailHead(entries: seq<Entry>, trailing: bool, k: seq<Token>, end: Token)
    requires FlowFollows(k, end)
    ensures FlowFollows(TailTokens(entries, trailing, k), end)
  {
  }

  /** A first entry without a key is read well only if it is `?` before the last comma. */
  lemma {:induction false} KeylessEntryParses(value: Option<Tree>, entries: seq<Entry>, trailing: bool, p: PState,
                                              rest: seq<Token>, k: seq<Event>, g: Goal)
    requires forall i :: 0 <= i < |entries| ==> EntryDerives(entries[i])
    requires value.Some? ==> Derives(value.value, InFlow)
    requires p.states != [] && p.marks != []
    requires p.tokens == [KeyT] + ValueTokens(value, TailTokens(entries, trailing, [FlowSequenceEndT] + rest))
    requires g.strict || (trailing && entries == [] && value.None?)
    ensures From(ParseFlowSequenceItem(p),
                 SequenceEntryEvents(Keyed(Pair(Omitted, value)), p.tags,
                                     SequenceEntriesEvents(entries, p.tags, [SequenceEnd] + k)), g)
            <==> trailing && entries == [] && value.None? && Meets(Closed(p, rest), k, g)
  {
    var more := TailTokens(entries, trailing, [FlowSequenceEndT] + rest);
    var events := SequenceEntriesEvents(entries, p.tags, [SequenceEnd] + k);
    if value.Some? {
      TailHead(entries, trailing, [FlowSequenceEndT] + rest, FlowSequenceEndT);
      ValueDropped(value.value, p, more, events, g);
    } else if entries != [] {
      SeparatorDropped(entries, trailing, p, [FlowSequenceEndT] + rest, events, g);
    } else if trailing {
      CommaDropped(p, [FlowSequenceEndT] + rest, events, g);
      LastCommaCloses(p, rest, k, g);
    } else {
      BracketDropped(p, rest, events, g);
    }
  }

  lemma {:induction false} LastCommaCloses(p: PState, rest: seq<Token>, k: seq<Event>, g: Goal)
    requires p.states != [] && p.marks != []
    ensures Meets(p.(state := SFlowSequenceEntry, tokens := [FlowSequenceEndT] + rest), [SequenceEnd] + k, g)
            <==> Meets(Closed(p, rest), k, g)
  {
    var q := p.(state := SFlowSequenceEntry, tokens := [FlowSequenceEndT] + rest);
    assert Closed(q, rest) == Closed(p, rest);
    CloseParses(q, FlowSequenceEndT, SequenceEnd, rest, k, g);
    StepThen(q, [SequenceEnd] + k, g);
  }

  /** `?, x`: the comma that is lost was needed before the next entry. */
  lemma {:induction false} SeparatorDropped(entries: seq<Entry>, trailing: bool, p: PState, rest: seq<Token>,
                                            k: seq<Event>, g: Goal)
    requires entries != [] && EntryDerives(entries[0]) && FlowFollows(rest, FlowSequenceEndT) && k != []
    requires p.tokens == [KeyT] + TailTokens(entries, trailing, rest)
    ensures !From(ParseFlowSequenceItem(p), SequenceEntryEvents(Keyed(Pair(Omitted, None)), p.tags, k), g)
  {
    var more := EntryTokens(entries[0], TailTokens(entries[1..], trailing, rest));
    EntryNonEmpty(entries[0], TailTokens(entries[1..], trailing, rest));
    CommaDropped(p, more, k, g);
    EntryStuck(p.(state := SFlowSequenceEntry, tokens := more), k, g);
  }

  lemma {:induction false} KeylessEntry(e: Entry, tags: seq<TagDirective>, k: seq<Token>)
    requires EntryDerives(e) && !KeyPresent(e)
    ensures e == Keyed(Pair(Omitted, e.pair.value)) && EntryTokens(e, k) == [KeyT] + ValueTokens(e.pair.value, k)
    ensures e.pair.value.Some? ==> Derives(e.pair.value.value, InFlow)
    ensures EntryExact(e, tags) <==> ValueExact(e.pair.value, tags)
  {
    var Keyed(pair) := e;
    assert PairDerives(pair, InFlow);
    assert EntryTokens(e, k) == PairTokens(pair, k);
    assert Tokens(pair.key, ValueTokens(pair.value, k)) == ValueTokens(pair.value, k);
    assert Exact(pair.key, tags) && EntryExact(e, tags) == PairExact(pair, tags);
    if pair.value.Some? {
      assert DerivesOptional(pair.value.value, InFlow);
    }
  }

  /** The entries of a flow sequence, from the first token of the first of them. */
  lemma {:induction false} SequenceItemsParse(entries: seq<Entry>, trailing: bool, p: PState, rest: seq<Token>,
                                              k: seq<Event>, g: Goal)
    requires entries != [] && forall i :: 0 <= i < |entries| ==> EntryDerives(entries[i])
    requires p.tokens == EntriesTokens(entries, trailing, [FlowSequenceEndT] + rest) && p.states != [] && p.marks != []
    requires p.tokens != []
    requires g.strict || SequenceExact(entries, trailing, p.tags)
    ensures From(ParseFlowSequenceItem(p), SequenceEntriesEvents(entries, p.tags, [SequenceEnd] + k), g)
            <==> SequenceExact(entries, trailing, p.tags) && Meets(Closed(p, rest), k, g)
    decreases entries, 0
  {
    if KeyPresent(entries[0]) {
      var more := TailTokens(entries[1..], trailing, [FlowSequenceEndT] + rest);
      var next := p.(state := SFlowSequenceEntry, tokens := more);
      assert Closed(next, rest) == Closed(p, rest);
      SequenceTailParses(entries[1..], trailing, next, rest, k, g);
      SequenceEntryParses(entries[0], p, more, SequenceEntriesEvents(entries[1..], p.tags, [SequenceEnd] + k), g);
    } else {
      var value := entries[0].pair.value;
      KeylessEntry(entries[0], p.tags, TailTokens(entries[1..], trailing, [FlowSequenceEndT] + rest));
      KeylessEntryParses(value, entries[1..], trailing, p, rest, k, g);
    }
  }

  /** The remaining entries of a flow sequence, from the state after an entry. */
  lemma {:induction false} SequenceTailParses(entries: seq<Entry>, trailing: bool, p: PState, rest: seq<Token>,
                                              k: seq<Event>, g: Goal)
    requires forall i :: 0 <= i < |entries| ==> EntryDerives(entries[i])
    requires p.tokens == TailTokens(entries, trailing, [FlowSequenceEndT] + rest) && p.states != [] && p.marks != []
    requires p.state == SFlowSequenceEntry
    requires g.strict || SequenceExact(entries, trailing, p.tags)
    ensures Meets(p, SequenceEntriesEvents(entries, p.tags, [SequenceEnd] + k), g)
            <==> SequenceExact(entries, trailing, p.tags) && Meets(Closed(p, rest), k, g)
    decreases entries, 1
  {
    if entries == [] {
      SequenceEnds(trailing, p, rest, k, g);
    } else {
      var more := TailTokens(entries[1..], trailing, [FlowSequenceEndT] + rest);
      TailHead(entries[1..], trailing, [FlowSequenceEndT] + rest, FlowSequenceEndT);
      EntryNonEmpty(entries[0], more);
      var q := p.(tokens := EntryTokens(entries[0], more));
      CommaRead(p, q.tokens);
      assert Closed(q, rest) == Closed(p, rest);
      SequenceItemsParse(entries, trailing, q, rest, k, g);
      StepThen(p, SequenceEntriesEvents(entries, p.tags, [SequenceEnd] + k), g);
    }
  }

  lemma {:induction false} CommaRead(p: PState, k: seq<Token>)
    requires p.state == SFlowSequenceEntry && p.tokens == [FlowEntryT] + k && k != []
    ensures Step(p) == ParseFlowSequenceItem(p.(tokens := k))
  {
    SkipHead(p, FlowEntryT, k);
  }

  lemma {:induction false} SequenceEnds(trailing: bool, p: PState, rest: seq<Token>, k: seq<Event>, g: Goal)
    requires p.state == SFlowSequenceEntry && p.states != [] && p.marks != []
    requires p.tokens == TailTokens([], trailing, [FlowSequenceEndT] + rest)
    ensures Meets(p, [SequenceEnd] + k, g) <==> Meets(Closed(p, rest), k, g)
  {
    var end := [FlowSequenceEndT] + rest;
    if trailing {
      CommaRead(p, end);
    }
    CloseParses(p.(tokens := end), FlowSequenceEndT, SequenceEnd, rest, k, g);
    StepThen(p, [SequenceEnd] + k, g);
  }

  lemma {:induction false} FlowSequenceParses(entries: seq<Entry>, trailing: bool, p: PState, rest: seq<Token>,
                                              k: seq<Event>, g: Goal)
    requires forall i :: 0 <= i < |entries| ==> EntryDerives(entries[i])
    requires p.tokens == EntriesTokens(entries, trailing, [FlowSequenceEndT] + rest) && p.states != [] && p.marks != []
    requires g.strict || SequenceExact(entries, trailing, p.tags)
    ensures From(ParseFlowSequenceEntry(p, true), SequenceEntriesEvents(entries, p.tags, [SequenceEnd] + k), g)
            <==> SequenceExact(entries, trailing, p.tags) && Meets(Closed(p, rest), k, g)
    decreases entries, 1
  {
    if entries == [] {
      CloseParses(p, FlowSequenceEndT, SequenceEnd, rest, k, g);
    } else {
      EntryNonEmpty(entries[0], TailTokens(entries[1..], trailing, [FlowSequenceEndT] + rest));
      SequenceItemsParse(entries, trailing, p, rest, k, g);
    }
  }

  // ---------- flow mappings ----------

  lemma {:induction false} MappingValueParses(value: Option<Tree>, p: PState, rest: seq<Token>, k: seq<Event>, g: Goal)
    requires value.Some? ==> DerivesOptional(value.value, InFlow)
    requires p.tokens == ValueTokens(value, rest)
    requires FlowFollows(rest, FlowMappingEndT)
    requires g.strict || ValueExact(value, p.tags)
    ensures From(ParseFlowMappingValue(p, false),
                 ValueEvents(value, p.tags, k), g)
            <==> ValueExact(value, p.tags) && Meets(p.(state := SFlowMappingKey, tokens := rest), k, g)
    decreases value, 0
  {
    if value.None? {
      EmitThen(EmptyScalar, p.(state := SFlowMappingKey), k, g);
    } else {
      SkipHead(p, ValueT, Tokens(value.value, rest));
      MemberParses(value.value, InFlow, Skip(p), SFlowMappingKey, rest, k, g);
      assert ParseFlowMappingValue(p, false) == Member(value.value, InFlow, Skip(p), SFlowMappingKey) by {
        if !value.value.Omitted? {
          NodeHead(value.value, InFlow, rest);
        }
      }
    }
  }

  lemma {:induction false} MappingValueReached(value: Option<Tree>, q: PState, rest: seq<Token>, k: seq<Event>, g: Goal)
    requires value.Some? ==> DerivesOptional(value.value, InFlow)
    requires q.tokens == ValueTokens(value, rest) && q.state == SFlowMappingValue
    requires FlowFollows(rest, FlowMappingEndT)
    requires g.strict || ValueExact(value, q.tags)
    ensures Meets(q, ValueEvents(value, q.tags, k), g)
            <==> ValueExact(value, q.tags) && Meets(q.(state := SFlowMappingKey, tokens := rest), k, g)
    decreases value, 1
  {
    MappingValueParses(value, q, rest, k, g);
    StepThen(q, ValueEvents(value, q.tags, k), g);
  }

  lemma {:induction false} MappingPairParses(pair: Pair, p: PState, rest: seq<Token>, k: seq<Event>, g: Goal)
    requires PairDerives(pair, InFlow) && p.tokens == PairTokens(pair, rest)
    requires FlowFollows(rest, FlowMappingEndT)
    requires g.strict || PairExact(pair, p.tags)
    ensures From(ParseFlowMappingItem(p), PairEvents(pair, p.tags, k), g)
            <==> PairExact(pair, p.tags) && Meets(p.(state := SFlowMappingKey, tokens := rest), k, g)
    decreases pair
  {
    var Pair(key, value) := pair;
    var tail := ValueTokens(value, rest);
    var events := ValueEvents(value, p.tags, k);
    var q := p.(state := SFlowMappingValue, tokens := tail);
    MappingValueReached(value, q, rest, k, g);
    SkipHead(p, KeyT, Tokens(key, tail));
    MemberParses(key, InFlow, Skip(p), SFlowMappingValue, tail, events, g);
    MappingKeyDispatch(key, p, tail);
  }

  lemma {:induction false} MappingKeyDispatch(key: Tree, p: PState, rest: seq<Token>)
    requires DerivesOptional(key, InFlow) && p.tokens == [KeyT] + Tokens(key, rest)
    requires rest != [] && (rest[0].ValueT? || FlowFollows(rest, FlowMappingEndT))
    ensures ParseFlowMappingItem(p) == Member(key, InFlow, Skip(p), SFlowMappingValue)
  {
    SkipHead(p, KeyT, Tokens(key, rest));
    if !key.Omitted? {
      NodeHead(key, InFlow, rest);
    }
  }

  lemma {:induction false} ValueOmitted(p: PState, rest: seq<Token>, k: seq<Event>, g: Goal)
    requires rest != []
    ensures Meets(p.(state := SFlowMappingEmptyValue, tokens := rest), [EmptyScalar] + k, g)
            <==> Meets(p.(state := SFlowMappingKey, tokens := rest), k, g)
  {
    var q := p.(state := SFlowMappingEmptyValue, tokens := rest);
    EmitThen(EmptyScalar, p.(state := SFlowMappingKey, tokens := rest), k, g);
    StepThen(q, [EmptyScalar] + k, g);
  }

  lemma {:induction false} MappingEntryParses(e: Entry, p: PState, rest: seq<Token>, k: seq<Event>, g: Goal)
    requires EntryDerives(e) && p.tokens == EntryTokens(e, rest) && p.tokens != []
    requires FlowFollows(rest, FlowMappingEndT)
    requires g.strict || EntryExact(e, p.tags)
    ensures From(ParseFlowMappingItem(p), MappingEntryEvents(e, p.tags, k), g)
            <==> EntryExact(e, p.tags) && Meets(p.(state := SFlowMappingKey, tokens := rest), k, g)
    decreases e
  {
    match e
    case Single(t) =>
      ValueOmitted(p, rest, k, g);
      MemberParses(t, InFlow, p, SFlowMappingEmptyValue, rest, [EmptyScalar] + k, g);
      NodeHead(t, InFlow, rest);
    case Keyed(pair) =>
      MappingPairParses(pair, p, rest, k, g);
  }

  lemma {:induction false} MappingTailParses(entries: seq<Entry>, trailing: bool, p: PState, rest: seq<Token>,
                                             k: seq<Event>, g: Goal)
    requires forall i :: 0 <= i < |entries| ==> EntryDerives(entries[i])
    requires p.tokens == TailTokens(entries, trailing, [FlowMappingEndT] + rest) && p.states != [] && p.marks != []
    requires p.state == SFlowMappingKey
    requires g.strict || MappingExact(entries, p.tags)
    ensures Meets(p, MappingEntriesEvents(entries, p.tags, [MappingEnd] + k), g)
            <==> MappingExact(entries, p.tags) && Meets(Closed(p, rest), k, g)
    decreases entries
  {
    if entries == [] {
      MappingEnds(trailing, p, rest, k, g);
    } else {
      var more := TailTokens(entries[1..], trailing, [FlowMappingEndT] + rest);
      var next := p.(tokens := more);
      assert Closed(next, rest) == Closed(p, rest);
      MappingTailParses(entries[1..], trailing, next, rest, k, g);
      TailHead(entries[1..], trailing, [FlowMappingEndT] + rest, FlowMappingEndT);
      EntryNonEmpty(entries[0], more);
      MappingCommaRead(p, EntryTokens(entries[0], more));
      var q := p.(tokens := EntryTokens(entries[0], more));
      MappingEntryParses(entries[0], q, more, MappingEntriesEvents(entries[1..], p.tags, [MappingEnd] + k), g);
      StepThen(p, MappingEntriesEvents(entries, p.tags, [MappingEnd] + k), g);
    }
  }

  lemma {:induction false} MappingCommaRead(p: PState, k: seq<Token>)
    requires p.state == SFlowMappingKey && p.tokens == [FlowEntryT] + k && k != []
    ensures Step(p) == if k[0].FlowMappingEndT? then EmitClose(p.(tokens := k), MappingEnd)
                       else ParseFlowMappingItem(p.(tokens := k))
  {
    SkipHead(p, FlowEntryT, k);
  }

  lemma {:induction false} MappingEnds(trailing: bool, p: PState, rest: seq<Token>, k: seq<Event>, g: Goal)
    requires p.state == SFlowMappingKey && p.states != [] && p.marks != []
    requires p.tokens == TailTokens([], trailing, [FlowMappingEndT] + rest)
    ensures Meets(p, [MappingEnd] + k, g) <==> Meets(Closed(p, rest), k, g)
  {
    var end := [FlowMappingEndT] + rest;
    if trailing {
      MappingCommaRead(p, end);
    }
    CloseParses(p.(tokens := end), FlowMappingEndT, MappingEnd, rest, k, g);
    StepThen(p, [MappingEnd] + k, g);
  }

  lemma {:induction false} FlowMappingParses(entries: seq<Entry>, trailing: bool, p: PState, rest: seq<Token>,
                                             k: seq<Event>, g: Goal)
    requires forall i :: 0 <= i < |entries| ==> EntryDerives(entries[i])
    requires p.tokens == EntriesTokens(entries, trailing, [FlowMappingEndT] + rest) && p.states != [] && p.marks != []
    requires g.strict || MappingExact(entries, p.tags)
    ensures From(ParseFlowMappingKey(p, true), MappingEntriesEvents(entries, p.tags, [MappingEnd] + k), g)
            <==> MappingExact(entries, p.tags) && Meets(Closed(p, rest), k, g)
    decreases entries, 1
  {
    if entries == [] {
      CloseParses(p, FlowMappingEndT, MappingEnd, rest, k, g);
    } else {
      var more := TailTokens(entries[1..], trailing, [FlowMappingEndT] + rest);
      var next := p.(state := SFlowMappingKey, tokens := more);
      assert Closed(next, rest) == Closed(p, rest);
      MappingTailParses(entries[1..], trailing, next, rest, k, g);
      EntryNonEmpty(entries[0], more);
      MappingEntryParses(entries[0], p, more, MappingEntriesEvents(entries[1..], p.tags, [MappingEnd] + k), g);
    }
  }
}
