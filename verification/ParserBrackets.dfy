/**
 Flow-sequence brackets over a run of the parser: every SEQUENCE-END of a flow sequence takes
 one FLOW-SEQUENCE-END token, so a bracket that is dropped is missing for good.
 */
module ParserBrackets {
  import opened Wrappers
  import opened G = EventGrammar
  import opened ParserSpec
  import opened ParserComplete

  function Weight(t: Token): int { if t.FlowSequenceStartT? then 1 else if t.FlowSequenceEndT? then -1 else 0 }

  /** Opening brackets minus closing brackets. */
  function Brackets(tokens: seq<Token>): int {
    if tokens == [] then 0 else Weight(tokens[0]) + Brackets(tokens[1..])
  }

  /** Whether the collection of state `s` is a flow sequence whose bracket has been taken. */
  function Within(s: State): int {
    match s
    case SFlowSequenceEntry => 1
    case SFlowSequenceEntryMappingKey => 1
    case SFlowSequenceEntryMappingValue => 1
    case SFlowSequenceEntryMappingEnd => 1
    case _ => 0
  }

  function Depth(states: seq<State>): int {
    if states == [] then 0 else Depth(states[..|states| - 1]) + Within(states[|states| - 1])
  }

  /** The flow sequences inside which a node is due, and the brackets still unread. */
  function Outside(p: PState): int { Depth(p.states) + Brackets(p.tokens) }

  /** The open flow sequences and the brackets still unread. */
  function Count(p: PState): int { Outside(p) + Within(p.state) }

  /** The token a collection's first state is about to drop. */
  function Opener(s: State): Option<Token> {
    match s
    case SBlockSequenceFirstEntry => Some(BlockSequenceStartT)
    case SBlockMappingFirstKey => Some(BlockMappingStartT)
    case SFlowSequenceFirstEntry => Some(FlowSequenceStartT)
    case SFlowMappingFirstKey => Some(FlowMappingStartT)
    case _ => None
  }

  predicate Returns(states: seq<State>) { forall i :: 0 <= i < |states| ==> Opener(states[i]).None? }

  predicate Ready(p: PState) {
    Returns(p.states) && (Opener(p.state).Some? ==> p.tokens != [] && p.tokens[0] == Opener(p.state).value)
  }

  /** If the outcome is an event, the count after it is `n`. */
  predicate Counted(o: Outcome, n: int) { o.Emit? ==> Ready(o.next) && Count(o.next) == n }

  lemma {:induction false} PushDepth(p: PState, s: State)
    requires Returns(p.states) && Opener(s).None?
    ensures Returns(Push(p, s).states) && Outside(Push(p, s)) == Outside(p) + Within(s)
  {
    assert (p.states + [s])[..|p.states|] == p.states;
  }

  lemma {:induction false} PopCount(p: PState)
    requires Returns(p.states) && p.states != []
    ensures Ready(PopTo(p)) && Count(PopTo(p)) == Outside(p)
    ensures p.tokens != [] ==> Ready(Skip(PopTo(p))) && Count(Skip(PopTo(p))) == Outside(p) - Weight(p.tokens[0])
  {
  }

  lemma {:induction false} CloseCounted(p: PState, e: Event)
    requires Returns(p.states) && p.tokens != []
    ensures Counted(EmitClose(p, e), Outside(p) - Weight(p.tokens[0]))
  {
    if p.states != [] {
      PopCount(p);
    }
  }

  // ---------- nodes ----------

  lemma {:induction false} ContentCounted(p: PState, block: bool, indentless: bool, anchor: Option<string>, tag: string)
    requires Returns(p.states) && p.tokens != []
    ensures Counted(ParseContent(p, block, indentless, anchor, tag), Outside(p))
  {
    if p.states != [] {
      PopCount(p);
    }
  }

  lemma {:induction false} PropertiesCounted(p: PState)
    requires p.tokens != [] && ParseProperties(p).Some?
    ensures var q := ParseProperties(p).value.rest;
            q == p.(tokens := q.tokens) && q.tokens != [] && Brackets(q.tokens) == Brackets(p.tokens)
  {
  }

  lemma {:induction false} NodeCounted(p: PState, block: bool, indentless: bool)
    requires Returns(p.states)
    ensures Counted(ParseNode(p, block, indentless), Outside(p))
  {
    if p.tokens != [] {
      if p.tokens[0].AliasT? {
        if p.states != [] {
          PopCount(p);
        }
      } else if ParseProperties(p).Some? {
        PropertiesCounted(p);
        var props := ParseProperties(p).value;
        match ResolveTag(props.rest.tags, props.tag) {
          case None =>
          case Some(tag) => ContentCounted(props.rest, block, indentless, props.anchor, tag);
        }
      }
    }
  }

  lemma {:induction false} MemberCounted(p: PState, s: State, block: bool, indentless: bool)
    requires Returns(p.states) && Opener(s).None?
    ensures Counted(ParseNode(Push(p, s), block, indentless), Outside(p) + Within(s))
    ensures Counted(EmitEmpty(p, s), Outside(p) + Within(s))
  {
    PushDepth(p, s);
    NodeCounted(Push(p, s), block, indentless);
  }

  // ---------- block collections ----------

  lemma {:induction false} BlockSequenceCounted(p: PState)
    requires Returns(p.states)
    ensures Counted(ParseBlockSequenceEntry(p), Outside(p))
  {
    if p.tokens != [] {
      MemberCounted(Skip(p), SBlockSequenceEntry, true, false);
      CloseCounted(p, SequenceEnd);
    }
  }

  lemma {:induction false} IndentlessSequenceCounted(p: PState)
    requires Returns(p.states)
    ensures Counted(ParseIndentlessSequenceEntry(p), Outside(p))
  {
    if p.tokens != [] {
      MemberCounted(Skip(p), SIndentlessSequenceEntry, true, false);
      if p.states != [] {
        PopCount(p);
      }
    }
  }

  lemma {:induction false} BlockKeyCounted(p: PState)
    requires Returns(p.states)
    ensures Counted(ParseBlockMappingKey(p), Outside(p))
  {
    if p.tokens != [] {
      MemberCounted(Skip(p), SBlockMappingValue, true, true);
      CloseCounted(p, MappingEnd);
    }
  }

  lemma {:induction false} BlockValueCounted(p: PState)
    requires Returns(p.states)
    ensures Counted(ParseBlockMappingValue(p), Outside(p))
  {
    MemberCounted(p, SBlockMappingKey, true, true);
    if p.tokens != [] {
      MemberCounted(Skip(p), SBlockMappingKey, true, true);
    }
  }

  // ---------- flow collections ----------

  lemma {:induction false} SequenceItemCounted(p: PState)
    requires Returns(p.states) && p.tokens != []
    ensures Counted(ParseFlowSequenceItem(p), Outside(p) + 1)
  {
    MemberCounted(p, SFlowSequenceEntry, false, false);
    CloseCounted(p, SequenceEnd);
  }

  lemma {:induction false} SequenceEntryCounted(p: PState, first: bool)
    requires Returns(p.states)
    ensures Counted(ParseFlowSequenceEntry(p, first), Outside(p) + 1)
  {
    if p.tokens != [] {
      CloseCounted(p, SequenceEnd);
      SequenceItemCounted(p);
      if Skip(p).tokens != [] {
        SequenceItemCounted(Skip(p));
      }
    }
  }

  /** The one step that changes the count: a closing bracket is dropped. */
  lemma {:induction false} SequenceKeyCounted(p: PState)
    requires Returns(p.states) && p.state == SFlowSequenceEntryMappingKey
    ensures Counted(ParseFlowSequenceEntryMappingKey(p), Outside(p) + 1 + if DropsBracket(p) then 1 else 0)
  {
    if p.tokens != [] {
      MemberCounted(p, SFlowSequenceEntryMappingValue, false, false);
      MemberCounted(Skip(p), SFlowSequenceEntryMappingValue, false, false);
    }
  }

  lemma {:induction false} SequenceValueCounted(p: PState)
    requires Returns(p.states)
    ensures Counted(ParseFlowSequenceEntryMappingValue(p), Outside(p) + 1)
  {
    MemberCounted(p, SFlowSequenceEntryMappingEnd, false, false);
    if p.tokens != [] {
      MemberCounted(Skip(p), SFlowSequenceEntryMappingEnd, false, false);
    }
  }

  lemma {:induction false} MappingItemCounted(p: PState)
    requires Returns(p.states) && p.tokens != []
    ensures Counted(ParseFlowMappingItem(p), Outside(p))
  {
    MemberCounted(Skip(p), SFlowMappingValue, false, false);
    MemberCounted(p, SFlowMappingEmptyValue, false, false);
    CloseCounted(p, MappingEnd);
  }

  lemma {:induction false} MappingKeyCounted(p: PState, first: bool)
    requires Returns(p.states)
    ensures Counted(ParseFlowMappingKey(p, first), Outside(p))
  {
    if p.tokens != [] {
      CloseCounted(p, MappingEnd);
      MappingItemCounted(p);
      if Skip(p).tokens != [] {
        MappingItemCounted(Skip(p));
      }
    }
  }

  lemma {:induction false} MappingValueCounted(p: PState, empty: bool)
    requires Returns(p.states)
    ensures Counted(ParseFlowMappingValue(p, empty), Outside(p))
  {
    MemberCounted(p, SFlowMappingKey, false, false);
    if p.tokens != [] {
      MemberCounted(Skip(p), SFlowMappingKey, false, false);
    }
  }

  // ---------- documents ----------

  lemma {:induction false} DirectivesCounted(p: PState, version: bool, tags: seq<TagDirective>)
    ensures match ProcessDirectives(p, version, tags)
            case Err(_) => true
            case Ok(d) => d.rest.states == p.states && Brackets(d.rest.tokens) == Brackets(p.tokens)
    decreases |p.tokens|
  {
    if p.tokens != [] {
      match p.tokens[0]
      case VersionT(_, _) =>
        DirectivesCounted(Skip(p), true, tags);
      case TagDirectiveT(d) =>
        match AppendTag(p.tags, d, false) {
          case Err(_) =>
          case Ok(all) => DirectivesCounted(Skip(p.(tags := all)), version, tags + [d]);
        }
      case _ =>
    }
  }

  lemma {:induction false} EndsCounted(p: PState)
    ensures SkipDocumentEnds(p).states == p.states && Brackets(SkipDocumentEnds(p).tokens) == Brackets(p.tokens)
    decreases |p.tokens|
  {
    if p.tokens != [] && p.tokens[0].DocumentEndT? {
      EndsCounted(Skip(p));
    }
  }

  lemma {:induction false} DocumentOpenCounted(p: PState, s: State, e: Event)
    requires Returns(p.states) && Opener(s).None? && Within(s) == 0
    ensures Counted(Emit(e, Push(p, SDocumentEnd).(state := s)), Outside(p))
  {
    PushDepth(p, SDocumentEnd);
  }

  lemma {:induction false} DocumentStartCounted(p: PState, implicit: bool)
    requires Returns(p.states)
    ensures Counted(ParseDocumentStart(p, implicit), Outside(p))
  {
    EndsCounted(p);
    var q := if implicit then p else SkipDocumentEnds(p);
    DirectivesCounted(q, false, []);
    if q.tokens != [] && !q.tokens[0].StreamEndT? {
      match ProcessDirectives(q, false, []) {
        case Err(_) =>
        case Ok(d) =>
          DocumentOpenCounted(d.rest, SBlockNode, DocumentStart(false, [], false));
          if d.rest.tokens != [] && d.rest.tokens[0].DocumentStartT? {
            DocumentOpenCounted(Skip(d.rest), SDocumentContent, DocumentStart(d.version, d.tags, false));
          }
      }
    }
  }

  lemma {:induction false} DocumentCounted(p: PState)
    requires Returns(p.states)
    ensures Counted(ParseDocumentContent(p), Outside(p)) && Counted(ParseDocumentEnd(p), Outside(p))
  {
    NodeCounted(p, true, false);
    if p.states != [] {
      PopCount(p);
    }
  }

  // ---------- steps and runs ----------

  lemma {:induction false} FirstCounted(p: PState)
    requires Ready(p) && Opener(p.state).Some?
    ensures Counted(Step(p), Count(p))
  {
    var q := Enter(p).value;
    assert Outside(q) == Outside(p) - Weight(p.tokens[0]);
    match p.state {
      case SBlockSequenceFirstEntry => BlockSequenceCounted(q);
      case SBlockMappingFirstKey => BlockKeyCounted(q);
      case SFlowSequenceFirstEntry => SequenceEntryCounted(q, true);
      case SFlowMappingFirstKey => MappingKeyCounted(q, true);
    }
  }

  /** One step: the count stays as it is, and grows by one when a bracket is dropped. */
  lemma {:induction false} StepCounted(p: PState)
    requires Ready(p) && p.state != SEnd
    ensures Counted(Step(p), Count(p) + if DropsBracket(p) then 1 else 0)
  {
    if Opener(p.state).Some? {
      FirstCounted(p);
    } else {
      match p.state {
        case SStreamStart =>
        case SImplicitDocumentStart => DocumentStartCounted(p, true);
        case SDocumentStart => DocumentStartCounted(p, false);
        case SDocumentContent => DocumentCounted(p);
        case SDocumentEnd => DocumentCounted(p);
        case SBlockNode => NodeCounted(p, true, false);
        case SBlockSequenceEntry => BlockSequenceCounted(p);
        case SIndentlessSequenceEntry => IndentlessSequenceCounted(p);
        case SBlockMappingKey => BlockKeyCounted(p);
        case SBlockMappingValue => BlockValueCounted(p);
        case SFlowSequenceEntry => SequenceEntryCounted(p, false);
        case SFlowSequenceEntryMappingKey => SequenceKeyCounted(p);
        case SFlowSequenceEntryMappingValue => SequenceValueCounted(p);
        case SFlowSequenceEntryMappingEnd =>
        case SFlowMappingKey => MappingKeyCounted(p, false);
        case SFlowMappingValue => MappingValueCounted(p, false);
        case SFlowMappingEmptyValue => MappingValueCounted(p, true);
      }
    }
  }

  /** Over a run the count never falls, and where it is the same at both ends no bracket was dropped. */
  lemma {:induction false} RunCounted(p: PState, events: seq<Event>, q: PState)
    requires Ready(p) && Reaches(p, events, q)
    ensures Ready(q) && Count(q) >= Count(p)
    ensures Count(q) == Count(p) ==> Meets(p, events, Goal(q, true))
    decreases |events|
  {
    if events != [] {
      StepCounted(p);
      RunCounted(Step(p).next, events[1..], q);
    }
  }
}
