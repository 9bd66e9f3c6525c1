/**
 What the parser does with the tokens it takes.  Whatever the tokens, well formed or not, the
 anchors, alias names, texts and tag directives of the events returned are those of the tokens
 taken, in the same order: none is lost, made up or moved.
 */
module ParserConserves {
  import opened Wrappers
  import opened G = EventGrammar
  import opened ParserSpec

  datatype Item =
    | Declared(directive: TagDirective) | Anchored(name: string) | Aliased(name: string)
    | Text(value: string, style: ScalarStyle)

  function OfToken(t: Token): seq<Item> {
    match t
    case TagDirectiveT(d) => [Declared(d)]
    case AnchorT(name) => [Anchored(name)]
    case AliasT(name) => [Aliased(name)]
    case ScalarT(value, style) => TextOf(value, style)
    case _ => []
  }

  /** An empty text is like none. */
  function TextOf(value: string, style: ScalarStyle): seq<Item> { if value == "" then [] else [Text(value, style)] }

  function AnchorOf(anchor: Option<string>): seq<Item> {
    match anchor case None => [] case Some(name) => [Anchored(name)]
  }

  function AllDeclared(tags: seq<TagDirective>): seq<Item> {
    if tags == [] then [] else [Declared(tags[0])] + AllDeclared(tags[1..])
  }

  function OfEvent(e: Event): seq<Item> {
    match e
    case DocumentStart(_, tags, _) => AllDeclared(tags)
    case Alias(name) => [Aliased(name)]
    case Scalar(anchor, _, value, _, _, style) => AnchorOf(anchor) + TextOf(value, style)
    case SequenceStart(anchor, _, _, _) => AnchorOf(anchor)
    case MappingStart(anchor, _, _, _) => AnchorOf(anchor)
    case _ => []
  }

  function OfTokens(ts: seq<Token>): seq<Item> {
    if ts == [] then [] else OfToken(ts[0]) + OfTokens(ts[1..])
  }

  function OfEvents(es: seq<Event>): seq<Item> {
    if es == [] then [] else OfEvent(es[0]) + OfEvents(es[1..])
  }

  // ---------- one step ----------

  /** A collection about to be entered still has its start token in front of it. */
  ghost predicate AtStart(p: PState) {
    match p.state
    case SBlockSequenceFirstEntry => p.tokens != [] && p.tokens[0] == BlockSequenceStartT
    case SBlockMappingFirstKey => p.tokens != [] && p.tokens[0] == BlockMappingStartT
    case SFlowSequenceFirstEntry => p.tokens != [] && p.tokens[0] == FlowSequenceStartT
    case SFlowMappingFirstKey => p.tokens != [] && p.tokens[0] == FlowMappingStartT
    case _ => true
  }

  predicate IsFirst(s: State) {
    s.SBlockSequenceFirstEntry? || s.SBlockMappingFirstKey? || s.SFlowSequenceFirstEntry? || s.SFlowMappingFirstKey?
  }

  /** No state to return to is that of a collection about to be entered. */
  ghost predicate Entered(states: seq<State>) { forall i :: 0 <= i < |states| ==> !IsFirst(states[i]) }

  ghost predicate Steady(p: PState) { AtStart(p) && Entered(p.states) }

  /** An outcome reached from the items `items`: what the event does not carry is still to come. */
  ghost predicate Keeps(items: seq<Item>, o: Outcome) {
    o.Emit? ==> items == OfEvent(o.event) + OfTokens(o.next.tokens) && Steady(o.next)
  }

  lemma {:induction false} ContentKeeps(p: PState, block: bool, indentless: bool, anchor: Option<string>, tag: string)
    requires p.tokens != [] && Entered(p.states)
    ensures Keeps(AnchorOf(anchor) + OfTokens(p.tokens), ParseContent(p, block, indentless, anchor, tag))
  {
    var t := p.tokens[0];
    var implicit := tag == "";
    if indentless && t.BlockEntryT? {
      OpenKeeps(p, SequenceStart(anchor, tag, implicit, Block), SIndentlessSequenceEntry);
    } else if t.ScalarT? {
      if p.states != [] {
        ScalarKeeps(p, anchor, tag, t.value, t.style);
      }
    } else if t.FlowSequenceStartT? {
      OpenKeeps(p, SequenceStart(anchor, tag, implicit, Flow), SFlowSequenceFirstEntry);
    } else if t.FlowMappingStartT? {
      OpenKeeps(p, MappingStart(anchor, tag, implicit, Flow), SFlowMappingFirstKey);
    } else if block && t.BlockSequenceStartT? {
      OpenKeeps(p, SequenceStart(anchor, tag, implicit, Block), SBlockSequenceFirstEntry);
    } else if block && t.BlockMappingStartT? {
      OpenKeeps(p, MappingStart(anchor, tag, implicit, Block), SBlockMappingFirstKey);
    } else {
      LeafKeeps(p, Scalar(anchor, tag, "", implicit, false, Plain));
    }
  }

  lemma {:induction false} OpenKeeps(p: PState, e: Event, s: State)
    requires Entered(p.states) && AtStart(p.(state := s))
    ensures Keeps(OfEvent(e) + OfTokens(p.tokens), Emit(e, p.(state := s)))
  {
  }

  lemma {:induction false} LeafKeeps(p: PState, e: Event)
    requires Entered(p.states) && e.Scalar? && e.value == ""
    ensures Keeps(AnchorOf(e.anchor) + OfTokens(p.tokens), EmitNode(p, e))
  {
    assert OfEvent(e) == AnchorOf(e.anchor) by {
      assert AnchorOf(e.anchor) + [] == AnchorOf(e.anchor);
    }
  }

  lemma {:induction false} ScalarKeeps(p: PState, anchor: Option<string>, tag: string, value: string,
                                       style: ScalarStyle)
    requires p.tokens != [] && p.tokens[0] == ScalarT(value, style) && p.states != [] && Entered(p.states)
    ensures Keeps(AnchorOf(anchor) + OfTokens(p.tokens), Emit(ScalarEvent(anchor, tag, value, style), Skip(PopTo(p))))
  {
    assert OfTokens(p.tokens) == TextOf(value, style) + OfTokens(p.tokens[1..]);
    assert AnchorOf(anchor) + (TextOf(value, style) + OfTokens(p.tokens[1..]))
           == (AnchorOf(anchor) + TextOf(value, style)) + OfTokens(p.tokens[1..]);
  }

  lemma {:induction false} PropertiesKeep(p: PState)
    requires p.tokens != []
    ensures match ParseProperties(p)
            case None => true
            case Some(r) => r.rest == p.(tokens := r.rest.tokens) && r.rest.tokens != []
                            && OfTokens(p.tokens) == AnchorOf(r.anchor) + OfTokens(r.rest.tokens)
  {
    if |p.tokens| > 1 {
      assert OfTokens(p.tokens) == OfToken(p.tokens[0]) + (OfToken(p.tokens[1]) + OfTokens(p.tokens[1..][1..]));
    }
  }

  lemma {:induction false} NodeKeeps(p: PState, block: bool, indentless: bool)
    requires Entered(p.states)
    ensures Keeps(OfTokens(p.tokens), ParseNode(p, block, indentless))
  {
    if p.tokens != [] && !p.tokens[0].AliasT? {
      PropertiesKeep(p);
      match ParseProperties(p) {
        case None =>
        case Some(props) =>
          match ResolveTag(props.rest.tags, props.tag) {
            case None =>
            case Some(tag) => ContentKeeps(props.rest, block, indentless, props.anchor, tag);
          }
      }
    }
  }

  lemma {:induction false} MemberKeeps(p: PState, s: State, block: bool, indentless: bool)
    requires Entered(p.states) && !IsFirst(s)
    ensures Keeps(OfTokens(p.tokens), ParseNode(Push(p, s), block, indentless))
  {
    assert Entered(Push(p, s).states);
    NodeKeeps(Push(p, s), block, indentless);
  }

  lemma {:induction false} DirectivesKeep(p: PState, version: bool, tags: seq<TagDirective>)
    ensures match ProcessDirectives(p, version, tags)
            case Err(_) => true
            case Ok(d) => AllDeclared(tags) + OfTokens(p.tokens) == AllDeclared(d.tags) + OfTokens(d.rest.tokens)
                          && d.rest.states == p.states
    decreases |p.tokens|
  {
    if p.tokens != [] {
      match p.tokens[0]
      case VersionT(_, _) => DirectivesKeep(Skip(p), true, tags);
      case TagDirectiveT(d) =>
        match AppendTag(p.tags, d, false) {
          case Err(_) =>
          case Ok(all) =>
            DirectivesKeep(Skip(p.(tags := all)), version, tags + [d]);
            DeclaredSnoc(tags, d);
            assert AllDeclared(tags) + ([Declared(d)] + OfTokens(p.tokens[1..]))
                   == (AllDeclared(tags) + [Declared(d)]) + OfTokens(p.tokens[1..]);
        }
      case _ =>
    }
  }

  lemma {:induction false} DeclaredSnoc(tags: seq<TagDirective>, d: TagDirective)
    ensures AllDeclared(tags + [d]) == AllDeclared(tags) + [Declared(d)]
  {
    if tags != [] {
      assert (tags + [d])[1..] == tags[1..] + [d];
      DeclaredSnoc(tags[1..], d);
    }
  }

  lemma {:induction false} DocumentEndsKeep(p: PState)
    ensures OfTokens(SkipDocumentEnds(p).tokens) == OfTokens(p.tokens) && SkipDocumentEnds(p).states == p.states
    decreases |p.tokens|
  {
    if p.tokens != [] && p.tokens[0].DocumentEndT? {
      DocumentEndsKeep(Skip(p));
    }
  }

  lemma {:induction false} DocumentStartKeeps(p: PState, implicit: bool)
    requires Entered(p.states)
    ensures Keeps(OfTokens(p.tokens), ParseDocumentStart(p, implicit))
  {
    DocumentEndsKeep(p);
    var q := if implicit then p else SkipDocumentEnds(p);
    DirectivesKeep(q, false, []);
    assert AllDeclared([]) + OfTokens(q.tokens) == OfTokens(q.tokens);
    match ProcessDirectives(q, false, []) {
      case Err(_) =>
      case Ok(d) =>
        DocumentOpens(q, d, SBlockNode);
        DocumentOpens(q, d, SDocumentContent);
    }
    if q.tokens != [] && q.tokens[0].StreamEndT? {
      SkipKeeps(q, StreamEnd, SEnd);
    }
  }

  /** A token that carries nothing is dropped along with an event that carries nothing. */
  lemma {:induction false} SkipKeeps(p: PState, e: Event, s: State)
    requires p.tokens != [] && OfToken(p.tokens[0]) == [] && OfEvent(e) == []
    requires Entered(p.states) && !IsFirst(s)
    ensures Keeps(OfTokens(p.tokens), Emit(e, Skip(p).(state := s)))
  {
  }

  lemma {:induction false} DocumentOpens(q: PState, d: Directives, s: State)
    requires Entered(q.states) && d.rest.states == q.states && (s.SBlockNode? || s.SDocumentContent?)
    requires OfTokens(q.tokens) == AllDeclared(d.tags) + OfTokens(d.rest.tokens)
    ensures d.tags == [] ==>
              Keeps(OfTokens(q.tokens), Emit(DocumentStart(false, [], false), Push(d.rest, SDocumentEnd).(state := s)))
    ensures d.rest.tokens != [] && d.rest.tokens[0].DocumentStartT? ==>
              Keeps(OfTokens(q.tokens),
                    Emit(DocumentStart(d.version, d.tags, false), Push(Skip(d.rest), SDocumentEnd).(state := s)))
  {
    if d.rest.tokens != [] && d.rest.tokens[0].DocumentStartT? {
      assert OfTokens(d.rest.tokens) == [] + OfTokens(d.rest.tokens[1..]);
    }
  }

  lemma {:induction false} SkipSame(p: PState)
    requires p.tokens != [] && OfToken(p.tokens[0]) == []
    ensures OfTokens(Skip(p).tokens) == OfTokens(p.tokens)
  {
  }

  lemma {:induction false} EmptyKeeps(p: PState, s: State)
    requires Entered(p.states) && !IsFirst(s)
    ensures Keeps(OfTokens(p.tokens), EmitEmpty(p, s))
  {
  }

  lemma {:induction false} CloseKeeps(p: PState, e: Event)
    requires p.tokens != [] && OfToken(p.tokens[0]) == [] && OfEvent(e) == [] && Entered(p.states)
    ensures Keeps(OfTokens(p.tokens), EmitClose(p, e))
  {
    SkipSame(p);
  }

  /** After a token that carries nothing comes a node, or nothing. */
  lemma {:induction false} PartKeeps(p: PState, s: State, block: bool, indentless: bool)
    requires p.tokens != [] && OfToken(p.tokens[0]) == [] && Entered(p.states) && !IsFirst(s)
    ensures Keeps(OfTokens(p.tokens), ParseNode(Push(Skip(p), s), block, indentless))
    ensures Keeps(OfTokens(p.tokens), EmitEmpty(Skip(p), s))
  {
    SkipSame(p);
    MemberKeeps(Skip(p), s, block, indentless);
    EmptyKeeps(Skip(p), s);
  }

  lemma {:induction false} BlockSequenceEntryKeeps(p: PState)
    requires Entered(p.states)
    ensures Keeps(OfTokens(p.tokens), ParseBlockSequenceEntry(p))
  {
    if p.tokens != [] {
      if p.tokens[0].BlockEntryT? {
        PartKeeps(p, SBlockSequenceEntry, true, false);
      } else if p.tokens[0].BlockEndT? {
        CloseKeeps(p, SequenceEnd);
      }
    }
  }

  lemma {:induction false} IndentlessSequenceEntryKeeps(p: PState)
    requires Entered(p.states)
    ensures Keeps(OfTokens(p.tokens), ParseIndentlessSequenceEntry(p))
  {
    if p.tokens != [] && p.tokens[0].BlockEntryT? {
      PartKeeps(p, SIndentlessSequenceEntry, true, false);
    }
  }

  lemma {:induction false} BlockMappingKeyKeeps(p: PState)
    requires Entered(p.states)
    ensures Keeps(OfTokens(p.tokens), ParseBlockMappingKey(p))
  {
    if p.tokens != [] {
      if p.tokens[0].KeyT? {
        PartKeeps(p, SBlockMappingValue, true, true);
      } else if p.tokens[0].BlockEndT? {
        CloseKeeps(p, MappingEnd);
      }
    }
  }

  lemma {:induction false} BlockMappingValueKeeps(p: PState)
    requires Entered(p.states)
    ensures Keeps(OfTokens(p.tokens), ParseBlockMappingValue(p))
  {
    EmptyKeeps(p, SBlockMappingKey);
    if p.tokens != [] && p.tokens[0].ValueT? {
      PartKeeps(p, SBlockMappingKey, true, true);
    }
  }

  lemma {:induction false} FlowSequenceItemKeeps(p: PState)
    requires p.tokens != [] && Entered(p.states)
    ensures Keeps(OfTokens(p.tokens), ParseFlowSequenceItem(p))
  {
    if p.tokens[0].KeyT? {
      SkipKeeps(p, MappingStart(None, "", true, Flow), SFlowSequenceEntryMappingKey);
    } else if p.tokens[0].FlowSequenceEndT? {
      CloseKeeps(p, SequenceEnd);
    } else {
      MemberKeeps(p, SFlowSequenceEntry, false, false);
    }
  }

  lemma {:induction false} FlowSequenceEntryKeeps(p: PState, first: bool)
    requires Entered(p.states)
    ensures Keeps(OfTokens(p.tokens), ParseFlowSequenceEntry(p, first))
  {
    if p.tokens != [] {
      FlowSequenceItemKeeps(p);
      if p.tokens[0].FlowSequenceEndT? {
        CloseKeeps(p, SequenceEnd);
      } else if p.tokens[0].FlowEntryT? && Skip(p).tokens != [] {
        SkipSame(p);
        FlowSequenceItemKeeps(Skip(p));
      }
    }
  }

  lemma {:induction false} FlowSequenceEntryMappingKeyKeeps(p: PState)
    requires Entered(p.states)
    ensures Keeps(OfTokens(p.tokens), ParseFlowSequenceEntryMappingKey(p))
  {
    if p.tokens != [] {
      if p.tokens[0].ValueT? || p.tokens[0].FlowEntryT? || p.tokens[0].FlowSequenceEndT? {
        PartKeeps(p, SFlowSequenceEntryMappingValue, false, false);
      } else {
        MemberKeeps(p, SFlowSequenceEntryMappingValue, false, false);
      }
    }
  }

  lemma {:induction false} FlowSequenceEntryMappingValueKeeps(p: PState)
    requires Entered(p.states)
    ensures Keeps(OfTokens(p.tokens), ParseFlowSequenceEntryMappingValue(p))
  {
    EmptyKeeps(p, SFlowSequenceEntryMappingEnd);
    if p.tokens != [] && p.tokens[0].ValueT? {
      PartKeeps(p, SFlowSequenceEntryMappingEnd, false, false);
    }
  }

  lemma {:induction false} FlowMappingItemKeeps(p: PState)
    requires p.tokens != [] && Entered(p.states)
    ensures Keeps(OfTokens(p.tokens), ParseFlowMappingItem(p))
  {
    if p.tokens[0].KeyT? {
      PartKeeps(p, SFlowMappingValue, false, false);
    } else if p.tokens[0].FlowMappingEndT? {
      CloseKeeps(p, MappingEnd);
    } else {
      MemberKeeps(p, SFlowMappingEmptyValue, false, false);
    }
  }

  lemma {:induction false} FlowMappingKeyKeeps(p: PState, first: bool)
    requires Entered(p.states)
    ensures Keeps(OfTokens(p.tokens), ParseFlowMappingKey(p, first))
  {
    if p.tokens != [] {
      FlowMappingItemKeeps(p);
      if p.tokens[0].FlowMappingEndT? {
        CloseKeeps(p, MappingEnd);
      } else if p.tokens[0].FlowEntryT? && Skip(p).tokens != [] {
        SkipSame(p);
        FlowMappingItemKeeps(Skip(p));
      }
    }
  }

  lemma {:induction false} FlowMappingValueKeeps(p: PState, empty: bool)
    requires Entered(p.states)
    ensures Keeps(OfTokens(p.tokens), ParseFlowMappingValue(p, empty))
  {
    EmptyKeeps(p, SFlowMappingKey);
    if p.tokens != [] && p.tokens[0].ValueT? {
      PartKeeps(p, SFlowMappingKey, false, false);
    }
  }

  lemma {:induction false} FrameKeeps(p: PState)
    requires Steady(p) && (p.state.SStreamStart? || p.state.SDocumentContent? || p.state.SDocumentEnd?)
    ensures Keeps(OfTokens(p.tokens), Step(p))
  {
    if p.state.SDocumentContent? {
      NodeKeeps(p, true, false);
      LeafKeeps(p, EmptyScalar);
    } else if p.tokens != [] && OfToken(p.tokens[0]) == [] {
      SkipSame(p);
    }
  }

  lemma {:induction false} FirstKeeps(p: PState)
    requires Steady(p) && IsFirst(p.state)
    ensures Keeps(OfTokens(p.tokens), Step(p))
  {
    var q := Enter(p).value;
    SkipSame(p);
    match p.state {
      case SBlockSequenceFirstEntry => BlockSequenceEntryKeeps(q);
      case SBlockMappingFirstKey => BlockMappingKeyKeeps(q);
      case SFlowSequenceFirstEntry => FlowSequenceEntryKeeps(q, true);
      case SFlowMappingFirstKey => FlowMappingKeyKeeps(q, true);
    }
  }

  lemma {:induction false} StepKeeps(p: PState)
    requires Steady(p) && p.state != SEnd
    ensures Keeps(OfTokens(p.tokens), Step(p))
  {
    match p.state {
      case SImplicitDocumentStart => DocumentStartKeeps(p, true);
      case SDocumentStart => DocumentStartKeeps(p, false);
      case SBlockNode => NodeKeeps(p, true, false);
      case SBlockSequenceEntry => BlockSequenceEntryKeeps(p);
      case SIndentlessSequenceEntry => IndentlessSequenceEntryKeeps(p);
      case SBlockMappingKey => BlockMappingKeyKeeps(p);
      case SBlockMappingValue => BlockMappingValueKeeps(p);
      case SFlowSequenceEntry => FlowSequenceEntryKeeps(p, false);
      case SFlowSequenceEntryMappingKey => FlowSequenceEntryMappingKeyKeeps(p);
      case SFlowSequenceEntryMappingValue => FlowSequenceEntryMappingValueKeeps(p);
      case SFlowSequenceEntryMappingEnd =>
      case SFlowMappingKey => FlowMappingKeyKeeps(p, false);
      case SFlowMappingValue => FlowMappingValueKeeps(p, false);
      case SFlowMappingEmptyValue => FlowMappingValueKeeps(p, true);
      case SStreamStart => FrameKeeps(p);
      case SDocumentContent => FrameKeeps(p);
      case SDocumentEnd => FrameKeeps(p);
      case _ => FirstKeeps(p);
    }
  }

  // ---------- main result ----------

  /**
   Over any run, on any tokens: what the events returned carry, followed by what the tokens left
   carry, is what all the tokens carried.
   */
  lemma {:induction false} RunKeeps(p: PState, events: seq<Event>, q: PState)
    requires Steady(p) && Reaches(p, events, q)
    ensures OfTokens(p.tokens) == OfEvents(events) + OfTokens(q.tokens) && Steady(q)
    decreases |events|
  {
    if events != [] {
      StepKeeps(p);
      RunKeeps(Step(p).next, events[1..], q);
      Regroup(OfEvent(events[0]), OfEvents(events[1..]), OfTokens(q.tokens));
    }
  }

  lemma Regroup(a: seq<Item>, b: seq<Item>, c: seq<Item>)
    ensures (a + b) + c == a + (b + c)
  {
  }

  lemma {:induction false} ParserConservesText(tokens: seq<Token>, events: seq<Event>, q: PState)
    requires Reaches(Initial(tokens), events, q)
    ensures OfTokens(tokens) == OfEvents(events) + OfTokens(q.tokens)
  {
    RunKeeps(Initial(tokens), events, q);
  }
}
