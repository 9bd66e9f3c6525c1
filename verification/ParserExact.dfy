/** Exactly which streams of the documented grammar the parser reads as the grammar means them. */
module ParserExact {
  import opened Wrappers
  import opened G = EventGrammar
  import opened ParserSpec
  import opened ParserComplete
  import opened ParserStream
  import opened ParserBrackets

  // ---------- the tokens of a derivation have balanced brackets ----------

  lemma {:induction false} TreeBalanced(t: Tree, k: seq<Token>)
    ensures Brackets(Tokens(t, k)) == Brackets(k)
    decreases t
  {
    match t
    case Omitted =>
    case AliasTree(name) => HeadCounts(AliasT(name), k);
    case NodeTree(props, content) =>
      ContentBalanced(content, k);
      PropsBalanced(props, ContentTokens(content, k));
  }

  lemma {:induction false} HeadCounts(t: Token, k: seq<Token>)
    ensures Brackets([t] + k) == Weight(t) + Brackets(k)
  {
    assert ([t] + k)[1..] == k;
  }

  lemma {:induction false} PropsBalanced(p: Props, k: seq<Token>)
    ensures Brackets(PropTokens(p, k)) == Brackets(k)
  {
    var anchor := if p.anchor.Some? then [AnchorT(p.anchor.value)] else [];
    var tag := if p.tag.Some? then [TagT(p.tag.value.handle, p.tag.value.suffix)] else [];
    OptionalBalanced(anchor, k);
    OptionalBalanced(tag, k);
    OptionalBalanced(anchor, tag + k);
    OptionalBalanced(tag, anchor + k);
  }

  lemma {:induction false} OptionalBalanced(x: seq<Token>, k: seq<Token>)
    requires x == [] || (|x| == 1 && Weight(x[0]) == 0)
    ensures Brackets(x + k) == Brackets(k)
  {
    if x == [] {
      assert x + k == k;
    } else {
      assert x == [x[0]];
      HeadCounts(x[0], k);
    }
  }

  lemma {:induction false} ContentBalanced(c: Content, k: seq<Token>)
    ensures Brackets(ContentTokens(c, k)) == Brackets(k)
    decreases c
  {
    match c
    case NoContent =>
    case ScalarContent(value, style) => HeadCounts(ScalarT(value, style), k);
    case BlockSequence(items) =>
      HeadCounts(BlockEndT, k);
      ItemsBalanced(items, [BlockEndT] + k);
      HeadCounts(BlockSequenceStartT, ItemsTokens(items, [BlockEndT] + k));
    case IndentlessSequence(items) => ItemsBalanced(items, k);
    case BlockMapping(pairs) =>
      HeadCounts(BlockEndT, k);
      PairsBalanced(pairs, [BlockEndT] + k);
      HeadCounts(BlockMappingStartT, PairsTokens(pairs, [BlockEndT] + k));
    case FlowSequence(entries, trailing) =>
      HeadCounts(FlowSequenceEndT, k);
      EntriesBalanced(entries, trailing, [FlowSequenceEndT] + k);
      HeadCounts(FlowSequenceStartT, EntriesTokens(entries, trailing, [FlowSequenceEndT] + k));
    case FlowMapping(entries, trailing) =>
      HeadCounts(FlowMappingEndT, k);
      EntriesBalanced(entries, trailing, [FlowMappingEndT] + k);
      HeadCounts(FlowMappingStartT, EntriesTokens(entries, trailing, [FlowMappingEndT] + k));
  }

  lemma {:induction false} ItemsBalanced(items: seq<Tree>, k: seq<Token>)
    ensures Brackets(ItemsTokens(items, k)) == Brackets(k)
    decreases items
  {
    if items != [] {
      ItemsBalanced(items[1..], k);
      TreeBalanced(items[0], ItemsTokens(items[1..], k));
      HeadCounts(BlockEntryT, Tokens(items[0], ItemsTokens(items[1..], k)));
    }
  }

  lemma {:induction false} PairBalanced(p: Pair, k: seq<Token>)
    ensures Brackets(PairTokens(p, k)) == Brackets(k)
    decreases p
  {
    ValueBalanced(p.value, k);
    TreeBalanced(p.key, ValueTokens(p.value, k));
    HeadCounts(KeyT, Tokens(p.key, ValueTokens(p.value, k)));
  }

  lemma {:induction false} ValueBalanced(v: Option<Tree>, k: seq<Token>)
    ensures Brackets(ValueTokens(v, k)) == Brackets(k)
    decreases v
  {
    if v.Some? {
      TreeBalanced(v.value, k);
      HeadCounts(ValueT, Tokens(v.value, k));
    }
  }

  lemma {:induction false} BlockPairBalanced(p: BlockPair, k: seq<Token>)
    ensures Brackets(BlockPairTokens(p, k)) == Brackets(k)
    decreases p
  {
    match p
    case WithKey(pair) => PairBalanced(pair, k);
    case ValueOnly(value) =>
      TreeBalanced(value, k);
      HeadCounts(ValueT, Tokens(value, k));
  }

  lemma {:induction false} PairsBalanced(pairs: seq<BlockPair>, k: seq<Token>)
    ensures Brackets(PairsTokens(pairs, k)) == Brackets(k)
    decreases pairs
  {
    if pairs != [] {
      PairsBalanced(pairs[1..], k);
      BlockPairBalanced(pairs[0], PairsTokens(pairs[1..], k));
    }
  }

  lemma {:induction false} EntryBalanced(e: Entry, k: seq<Token>)
    ensures Brackets(EntryTokens(e, k)) == Brackets(k)
    decreases e
  {
    match e
    case Single(t) => TreeBalanced(t, k);
    case Keyed(p) => PairBalanced(p, k);
  }

  lemma {:induction false} TailBalanced(entries: seq<Entry>, trailing: bool, k: seq<Token>)
    ensures Brackets(TailTokens(entries, trailing, k)) == Brackets(k)
    decreases entries
  {
    if entries == [] {
      HeadCounts(FlowEntryT, k);
    } else {
      var more := TailTokens(entries[1..], trailing, k);
      TailBalanced(entries[1..], trailing, k);
      EntryBalanced(entries[0], more);
      HeadCounts(FlowEntryT, EntryTokens(entries[0], more));
    }
  }

  lemma {:induction false} EntriesBalanced(entries: seq<Entry>, trailing: bool, k: seq<Token>)
    ensures Brackets(EntriesTokens(entries, trailing, k)) == Brackets(k)
    decreases entries, 1
  {
    if entries != [] {
      TailBalanced(entries[1..], trailing, k);
      EntryBalanced(entries[0], TailTokens(entries[1..], trailing, k));
    }
  }

  lemma {:induction false} DirectivesBalanced(ds: seq<Directive>, k: seq<Token>)
    ensures Brackets(DirectiveTokens(ds, k)) == Brackets(k)
  {
    if ds != [] {
      DirectivesBalanced(ds[1..], k);
      HeadCounts(DirectiveToken(ds[0]), DirectiveTokens(ds[1..], k));
    }
  }

  lemma {:induction false} EndsBalanced(n: nat, k: seq<Token>)
    ensures Brackets(EndTokens(n, k)) == Brackets(k)
  {
    if n > 0 {
      EndsBalanced(n - 1, k);
      HeadCounts(DocumentEndT, EndTokens(n - 1, k));
    }
  }

  lemma {:induction false} DocumentsBalanced(docs: seq<SourceDocument>, k: seq<Token>)
    ensures Brackets(DocumentsTokens(docs, k)) == Brackets(k)
    decreases docs
  {
    if docs != [] {
      var d, more := docs[0], DocumentsTokens(docs[1..], k);
      var body := Tokens(d.root, EndTokens(d.ends, more));
      DocumentsBalanced(docs[1..], k);
      EndsBalanced(d.ends, more);
      TreeBalanced(d.root, EndTokens(d.ends, more));
      HeadCounts(DocumentStartT, body);
      DirectivesBalanced(d.directives, [DocumentStartT] + body);
    }
  }

  lemma {:induction false} StreamBalanced(docs: seq<SourceDocument>, k: seq<Token>)
    ensures Count(Initial(StreamTokens(docs, k))) == Count(Boundary(SEnd, k))
  {
    HeadCounts(StreamEndT, k);
    DocumentsBalanced(docs, [StreamEndT] + k);
    HeadCounts(StreamStartT, DocumentsTokens(docs, [StreamEndT] + k));
  }

  // ---------- the main result ----------

  /**
   Main result: on the tokens of any stream the grammar derives, the parser returns the events
   of that stream, stops in the end state and leaves the tokens after the stream, if and only
   if the directives of each document agree, every tag handle is defined, nodes without content
   have a name or a tag, no pair of a block mapping begins at its VALUE, and no flow sequence
   has a pair without a key that loses a token it needs.
   */
  lemma {:induction false} ParserFollowsGrammar(docs: seq<SourceDocument>, k: seq<Token>)
    requires StreamDerives(docs)
    ensures Reaches(Initial(StreamTokens(docs, k)), StreamEvents(docs), Boundary(SEnd, k)) <==> StreamExact(docs)
  {
    var p, end := Initial(StreamTokens(docs, k)), Boundary(SEnd, k);
    StreamParses(docs, k, true);
    MeetsReaches(p, StreamEvents(docs), end);
    if StreamExact(docs) {
      StreamParses(docs, k, false);
    } else if Reaches(p, StreamEvents(docs), end) {
      StreamBalanced(docs, k);
      RunCounted(p, StreamEvents(docs), end);
    }
  }

  // ---------- where the code departs from its grammar ----------

  lemma {:induction false} Before(e: Event, p: PState, q: PState, events: seq<Event>, r: PState)
    requires p.state != SEnd && Step(p) == Emit(e, q) && Reaches(q, events, r)
    ensures Reaches(p, [e] + events, r)
  {
    assert ([e] + events)[1..] == events;
  }

  /**
   Without the key node, the token `dropped` (which ends the key) is lost and the key is empty.
   A VALUE that comes next is then taken for the pair's own.  Otherwise the pair is empty, and
   what comes next is taken for the separator after it: a bracket closes the sequence, a comma
   leads to the next entry, and anything else is an error.
   */
  lemma {:induction false} OmittedKeyContinues(p: PState, dropped: Token, k: seq<Token>)
    requires p.state == SFlowSequenceEntryMappingKey && p.marks != [] && p.tokens == [dropped] + k
    requires dropped.ValueT? || dropped.FlowEntryT? || dropped.FlowSequenceEndT?
    requires k != []
    ensures var v := p.(state := SFlowSequenceEntryMappingValue, tokens := k);
            var q := p.(state := SFlowSequenceEntry, tokens := k);
            if k[0].ValueT? then
              && Reaches(p, [EmptyScalar], v)
              && Step(v) == if |k| == 1 then Fail(NoToken)
                            else if k[1].FlowEntryT? || k[1].FlowSequenceEndT? then
                              EmitEmpty(v.(tokens := k[1..]), SFlowSequenceEntryMappingEnd)
                            else ParseNode(Push(v.(tokens := k[1..]), SFlowSequenceEntryMappingEnd), false, false)
            else
              && Reaches(p, [EmptyScalar, EmptyScalar, MappingEnd], q)
              && Step(q) == if k[0].FlowSequenceEndT? then EmitClose(q, SequenceEnd)
                            else if !k[0].FlowEntryT? then Fail(ExpectedCommaOrBracket(LastMark(p)))
                            else if |k| == 1 then Fail(NoToken)
                            else ParseFlowSequenceItem(q.(tokens := k[1..]))
  {
    var v := p.(state := SFlowSequenceEntryMappingValue, tokens := k);
    SkipHead(p, dropped, k);
    assert Step(p) == Emit(EmptyScalar, v);
    if k[0].ValueT? {
      Before(EmptyScalar, p, v, [], v);
      assert [EmptyScalar] + [] == [EmptyScalar];
    } else {
      EmptyPair(p, v);
    }
  }

  lemma {:induction false} EmptyPair(p: PState, v: PState)
    requires p.state != SEnd && Step(p) == Emit(EmptyScalar, v)
    requires v.state == SFlowSequenceEntryMappingValue && v.tokens != [] && !v.tokens[0].ValueT?
    ensures Reaches(p, [EmptyScalar, EmptyScalar, MappingEnd], v.(state := SFlowSequenceEntry))
  {
    var end, q := v.(state := SFlowSequenceEntryMappingEnd), v.(state := SFlowSequenceEntry);
    Before(MappingEnd, end, q, [], q);
    Before(EmptyScalar, v, end, [MappingEnd] + [], q);
    Before(EmptyScalar, p, v, [EmptyScalar] + ([MappingEnd] + []), q);
    assert [EmptyScalar] + ([EmptyScalar] + ([MappingEnd] + [])) == [EmptyScalar, EmptyScalar, MappingEnd];
  }

  /** The stream `[? : x]`: derivable, and rejected. */
  lemma {:induction false} OmittedKeyCounterexample()
    ensures var x := NodeTree(Props(None, None, false), ScalarContent("x", Plain));
            var entry := Keyed(Pair(Omitted, Some(x)));
            var root := NodeTree(Props(None, None, false), FlowSequence([entry], false));
            var docs := [SourceDocument(false, [], root, 0)];
            && StreamDerives(docs)
            && exists events, q ::
                 Reaches(Initial(StreamTokens(docs, [])), events, q) && q.state != SEnd && Step(q).Fail?
  {
    var x := NodeTree(Props(None, None, false), ScalarContent("x", Plain));
    var entry := Keyed(Pair(Omitted, Some(x)));
    var root := NodeTree(Props(None, None, false), FlowSequence([entry], false));
    var xs := [ScalarT("x", Plain), FlowSequenceEndT, StreamEndT];
    assert Derives(x, InFlow) && PairDerives(entry.pair, InFlow) && EntryDerives(entry);
    assert ContentDerives(root.content, InSequence) && Derives(root, InSequence);
    assert DocumentDerives(SourceDocument(false, [], root, 0));
    CounterexampleTokens(x, entry, root, xs);
    var p := PState(SFlowSequenceEntryMappingKey, [SDocumentEnd], [6], WithDefaults([]), [ValueT] + xs);
    var q := p.(state := SFlowSequenceEntry, tokens := xs);
    OmittedKeyContinues(p, ValueT, xs);
    var events := CounterexampleOpening(xs, p, [EmptyScalar, EmptyScalar, MappingEnd], q);
  }

  lemma {:induction false} CounterexampleOpening(xs: seq<Token>, p: PState, events: seq<Event>, q: PState)
    returns (all: seq<Event>)
    requires p == PState(SFlowSequenceEntryMappingKey, [SDocumentEnd], [|xs| + 3], WithDefaults([]), [ValueT] + xs)
    requires Reaches(p, events, q)
    ensures Reaches(Initial([StreamStartT, FlowSequenceStartT, KeyT, ValueT] + xs), all, q)
  {
    var k := [ValueT] + xs;
    var tokens := [FlowSequenceStartT] + ([KeyT] + k);
    var node := PState(SBlockNode, [SDocumentEnd], [], WithDefaults([]), tokens);
    assert [] + [|tokens|] == [|xs| + 3];
    assert p == node.(state := SFlowSequenceEntryMappingKey, marks := node.marks + [|tokens|], tokens := k);
    all := KeyedEntryOpening(node, k, events, q);
    all := ImplicitStreamOpening(tokens, all, q);
    assert [StreamStartT] + tokens == [StreamStartT, FlowSequenceStartT, KeyT, ValueT] + xs;
  }

  lemma {:induction false} KeyedEntryOpening(p: PState, k: seq<Token>, events: seq<Event>, q: PState)
    returns (all: seq<Event>)
    requires p.state == SBlockNode && p.tokens == [FlowSequenceStartT] + ([KeyT] + k)
    requires Reaches(p.(state := SFlowSequenceEntryMappingKey, marks := p.marks + [|p.tokens|], tokens := k), events, q)
    ensures Reaches(p, all, q)
  {
    var s := p.(state := SFlowSequenceFirstEntry);
    SkipHead(s, FlowSequenceStartT, [KeyT] + k);
    var e := s.(marks := p.marks + [|p.tokens|], tokens := [KeyT] + k);
    assert Enter(s) == Some(e);
    SkipHead(e, KeyT, k);
    all := [MappingStart(None, "", true, Flow)] + events;
    Before(MappingStart(None, "", true, Flow), s, e.(state := SFlowSequenceEntryMappingKey, tokens := k), events, q);
    Before(SequenceStart(None, "", true, Flow), p, s, all, q);
    all := [SequenceStart(None, "", true, Flow)] + all;
  }

  lemma {:induction false} ImplicitStreamOpening(tokens: seq<Token>, events: seq<Event>, q: PState)
    returns (all: seq<Event>)
    requires tokens != [] && !StartsExplicit(tokens[0]) && !tokens[0].StreamEndT?
    requires Reaches(PState(SBlockNode, [SDocumentEnd], [], WithDefaults([]), tokens), events, q)
    ensures Reaches(Initial([StreamStartT] + tokens), all, q)
  {
    var p := Boundary(SImplicitDocumentStart, tokens);
    assert [] + [SDocumentEnd] == [SDocumentEnd];
    var node := PState(SBlockNode, [SDocumentEnd], [], WithDefaults([]), tokens);
    Before(DocumentStart(false, [], false), p, node, events, q);
    all := [DocumentStart(false, [], false)] + events;
    SkipHead(Initial([StreamStartT] + tokens), StreamStartT, tokens);
    Before(StreamStart, Initial([StreamStartT] + tokens), p, all, q);
    all := [StreamStart] + all;
  }

  lemma {:induction false} CounterexampleTokens(x: Tree, entry: Entry, root: Tree, xs: seq<Token>)
    requires x == NodeTree(Props(None, None, false), ScalarContent("x", Plain))
    requires entry == Keyed(Pair(Omitted, Some(x)))
    requires root == NodeTree(Props(None, None, false), FlowSequence([entry], false))
    requires xs == [ScalarT("x", Plain), FlowSequenceEndT, StreamEndT]
    ensures StreamTokens([SourceDocument(false, [], root, 0)], [])
            == [StreamStartT, FlowSequenceStartT, KeyT, ValueT] + xs
  {
    var end := [FlowSequenceEndT, StreamEndT];
    assert [FlowSequenceEndT] + [StreamEndT] == end && [StreamEndT] + [] == [StreamEndT];
    assert Tokens(x, end) == xs;
    assert PairTokens(entry.pair, end) == [KeyT] + ([ValueT] + xs);
    assert TailTokens([entry][1..], false, end) == end;
    assert EntriesTokens([entry], false, end) == [KeyT] + ([ValueT] + xs);
    assert ContentTokens(root.content, [StreamEndT]) == [FlowSequenceStartT] + ([KeyT] + ([ValueT] + xs));
    assert Tokens(root, [StreamEndT]) == ContentTokens(root.content, [StreamEndT]);
    var doc := SourceDocument(false, [], root, 0);
    assert DocumentsTokens([doc][1..], [StreamEndT]) == [StreamEndT];
    assert DocumentTokens(doc, [StreamEndT]) == Tokens(root, EndTokens(0, [StreamEndT]));
  }

  /** The stream `: x`: derivable, as a block mapping may begin at a VALUE, and rejected. */
  lemma {:induction false} OmittedKeyTokenCounterexample()
    ensures var x := NodeTree(Props(None, None, false), ScalarContent("x", Plain));
            var root := NodeTree(Props(None, None, false), BlockMapping([ValueOnly(x)]));
            var docs := [SourceDocument(false, [], root, 0)];
            && StreamDerives(docs)
            && StreamTokens(docs, [])
               == [StreamStartT, BlockMappingStartT, ValueT, ScalarT("x", Plain), BlockEndT, StreamEndT]
            && exists events, q ::
                 Reaches(Initial(StreamTokens(docs, [])), events, q) && q.state != SEnd && Step(q).Fail?
  {
    var x := NodeTree(Props(None, None, false), ScalarContent("x", Plain));
    var root := NodeTree(Props(None, None, false), BlockMapping([ValueOnly(x)]));
    assert Derives(x, InMapping) && BlockPairDerives(ValueOnly(x));
    assert ContentDerives(root.content, InSequence) && Derives(root, InSequence);
    assert DocumentDerives(SourceDocument(false, [], root, 0));
    var xs := [ValueT, ScalarT("x", Plain), BlockEndT, StreamEndT];
    ValueOnlyTokens(x, root, xs);
    var events, q := ValueRefused(ValueT, xs[1..]);
    assert [ValueT] + xs[1..] == xs;
    assert [StreamStartT] + ([BlockMappingStartT] + xs)
           == [StreamStartT, BlockMappingStartT, ValueT, ScalarT("x", Plain), BlockEndT, StreamEndT];
  }

  /** A document that begins with a block mapping at a VALUE token is refused. */
  lemma {:induction false} ValueRefused(t: Token, k: seq<Token>) returns (events: seq<Event>, q: PState)
    requires t.ValueT?
    ensures Reaches(Initial([StreamStartT] + ([BlockMappingStartT] + ([t] + k))), events, q)
    ensures q.state != SEnd && Step(q).Fail?
  {
    var tokens := [BlockMappingStartT] + ([t] + k);
    var p := PState(SBlockNode, [SDocumentEnd], [], WithDefaults([]), tokens);
    q := p.(state := SBlockMappingFirstKey);
    Before(MappingStart(None, "", true, Block), p, q, [], q);
    SkipHead(q.(marks := q.marks + [|q.tokens|]), BlockMappingStartT, [t] + k);
    KeyMissing(Enter(q).value);
    events := ImplicitStreamOpening(tokens, [MappingStart(None, "", true, Block)] + [], q);
  }

  lemma {:induction false} ValueOnlyTokens(x: Tree, root: Tree, xs: seq<Token>)
    requires x == NodeTree(Props(None, None, false), ScalarContent("x", Plain))
    requires root == NodeTree(Props(None, None, false), BlockMapping([ValueOnly(x)]))
    requires xs == [ValueT, ScalarT("x", Plain), BlockEndT, StreamEndT]
    ensures StreamTokens([SourceDocument(false, [], root, 0)], []) == [StreamStartT] + ([BlockMappingStartT] + xs)
  {
    var end := [BlockEndT, StreamEndT];
    assert [BlockEndT] + [StreamEndT] == end && [StreamEndT] + [] == [StreamEndT];
    assert Tokens(x, end) == [ScalarT("x", Plain)] + end;
    assert BlockPairTokens(ValueOnly(x), end) == [ValueT] + ([ScalarT("x", Plain)] + end);
    assert PairsTokens([ValueOnly(x)][1..], end) == end;
    assert PairsTokens([ValueOnly(x)], end) == xs;
    assert ContentTokens(root.content, [StreamEndT]) == [BlockMappingStartT] + xs;
    assert Tokens(root, [StreamEndT]) == ContentTokens(root.content, [StreamEndT]);
    var doc := SourceDocument(false, [], root, 0);
    assert DocumentsTokens([doc][1..], [StreamEndT]) == [StreamEndT];
    assert DocumentTokens(doc, [StreamEndT]) == Tokens(root, EndTokens(0, [StreamEndT]));
  }
}
