/**
 Soundness of the parser on every token sequence, well formed or not: no step panics, and
 the events returned before the first error drive the event automaton, so they always form
 a prefix of a word of the event grammar.
 */
module ParserSound {
  import opened Wrappers
  import opened G = EventGrammar
  import opened ParserSpec

  /** The collections a stacked return state stands for, as they are before its node is attached. */
  function Pushed(s: State): seq<Slot> {
    match s
    case SBlockSequenceEntry => [Item]
    case SIndentlessSequenceEntry => [Item]
    case SFlowSequenceEntry => [Item]
    case SBlockMappingValue => [Key]
    case SFlowMappingValue => [Key]
    case SFlowMappingEmptyValue => [Key]
    case SBlockMappingKey => [Value]
    case SFlowMappingKey => [Value]
    case SFlowSequenceEntryMappingValue => [Item, Key]
    case SFlowSequenceEntryMappingEnd => [Item, Value]
    case _ => []
  }

  /** The collections the current state is inside of. */
  function Current(s: State): seq<Slot> {
    match s
    case SBlockSequenceFirstEntry => [Item]
    case SBlockSequenceEntry => [Item]
    case SIndentlessSequenceEntry => [Item]
    case SFlowSequenceFirstEntry => [Item]
    case SFlowSequenceEntry => [Item]
    case SBlockMappingFirstKey => [Key]
    case SBlockMappingKey => [Key]
    case SFlowMappingFirstKey => [Key]
    case SFlowMappingKey => [Key]
    case SBlockMappingValue => [Value]
    case SFlowMappingValue => [Value]
    case SFlowMappingEmptyValue => [Value]
    case SFlowSequenceEntryMappingKey => [Item, Key]
    case SFlowSequenceEntryMappingValue => [Item, Value]
    case SFlowSequenceEntryMappingEnd => [Item, Key]
    case _ => []
  }

  function Stacked(states: seq<State>): seq<Slot> {
    if states == [] then []
    else Stacked(states[..|states| - 1]) + Pushed(states[|states| - 1])
  }

  predicate IsReturnState(s: State) { Pushed(s) != [] }

  /** Whether the collection of state `s` holds an entry of the mark stack. */
  function MarkOf(s: State): nat {
    if |Current(s)| == 0 || IsFirst(s) || s.SIndentlessSequenceEntry? then 0 else 1
  }

  function MarksOf(states: seq<State>): nat {
    if states == [] then 0 else MarksOf(states[..|states| - 1]) + MarkOf(states[|states| - 1])
  }

  predicate IsFirst(s: State) {
    s.SBlockSequenceFirstEntry? || s.SBlockMappingFirstKey? || s.SFlowSequenceFirstEntry? || s.SFlowMappingFirstKey?
  }

  predicate OutsideDocument(s: State) {
    s.SStreamStart? || s.SImplicitDocumentStart? || s.SDocumentStart? || s.SDocumentEnd? || s.SEnd?
  }

  /** The state stack of a document: the document end, then one return state per open construct. */
  predicate DocumentStack(states: seq<State>) {
    && states != [] && states[0] == SDocumentEnd
    && forall i :: 1 <= i < |states| ==> IsReturnState(states[i])
  }

  /** The invariant of a parser between two events. */
  ghost predicate Inv(p: PState) {
    if OutsideDocument(p.state) then p.states == [] && p.marks == []
    else
      && DocumentStack(p.states)
      && |p.marks| == MarksOf(p.states) + MarkOf(p.state)
      && (IsFirst(p.state) ==> p.tokens != [])
  }

  /** Where the parser stands in the event grammar. */
  function Position(p: PState): Config {
    if !OutsideDocument(p.state) then Expect(Stacked(p.states) + Current(p.state))
    else match p.state
      case SStreamStart => Start
      case SDocumentEnd => RootDone
      case SEnd => End
      case _ => Between
  }

  /** What soundness says of one outcome, seen from grammar position `c`. */
  ghost predicate Sound(c: Config, o: Outcome) {
    match o
    case Panic => false
    case Fail(_) => true
    case Emit(e, q) => Inv(q) && Next(c, e) == Some(Position(q))
  }

  /** A parser about to parse a node inside a document, all of its marks accounted for. */
  ghost predicate NodeDue(p: PState) {
    DocumentStack(p.states) && |p.marks| == MarksOf(p.states)
  }

  lemma {:induction false} PushStacked(p: PState, s: State)
    requires DocumentStack(p.states) && IsReturnState(s)
    ensures DocumentStack(Push(p, s).states)
    ensures Stacked(Push(p, s).states) == Stacked(p.states) + Pushed(s)
    ensures MarksOf(Push(p, s).states) == MarksOf(p.states) + MarkOf(s)
  {
    assert (p.states + [s])[..|p.states|] == p.states;
  }

  /** Attaching a node turns the stacked view of a return state into its current view. */
  lemma {:induction false} ReturnAttaches(base: seq<Slot>, s: State)
    requires IsReturnState(s)
    ensures AfterNode(base + Pushed(s)) == Expect(base + Current(s))
  {
    var slots := base + Pushed(s);
    assert slots[..|slots| - 1] == base + Pushed(s)[..|Pushed(s)| - 1];
  }

  lemma ReturnStateIsInside(s: State)
    requires IsReturnState(s)
    ensures !OutsideDocument(s) && !IsFirst(s)
  {
  }

  /** Returning to the stacked state attaches one node. */
  lemma {:induction false} PopAttaches(p: PState)
    requires NodeDue(p)
    ensures Inv(PopTo(p)) && Position(PopTo(p)) == AfterNode(Stacked(p.states))
    ensures !IsFirst(PopTo(p).state)
  {
    var rest, top := p.states[..|p.states| - 1], p.states[|p.states| - 1];
    if rest == [] {
      assert Stacked(rest) == [] && Stacked(p.states) == [];
      assert MarksOf(rest) == 0 && MarkOf(top) == 0;
    } else {
      PopInside(p);
    }
  }

  lemma {:induction false} PopInside(p: PState)
    requires NodeDue(p) && |p.states| > 1
    ensures Inv(PopTo(p)) && Position(PopTo(p)) == AfterNode(Stacked(p.states))
    ensures !IsFirst(PopTo(p).state)
  {
    var rest, top := p.states[..|p.states| - 1], p.states[|p.states| - 1];
    assert IsReturnState(top) && DocumentStack(rest);
    ReturnStateIsInside(top);
    ReturnAttaches(Stacked(rest), top);
  }

  lemma {:induction false} PopSkipAttaches(p: PState)
    requires NodeDue(p) && p.tokens != []
    ensures Inv(Skip(PopTo(p))) && Position(Skip(PopTo(p))) == AfterNode(Stacked(p.states))
  {
    PopAttaches(p);
  }

  lemma {:induction false} EmitNodeSound(p: PState, e: Event)
    requires NodeDue(p) && IsLeafEvent(e)
    ensures Sound(Expect(Stacked(p.states)), EmitNode(p, e))
    ensures p.tokens != [] ==> Sound(Expect(Stacked(p.states)), Emit(e, Skip(PopTo(p))))
  {
    PopAttaches(p);
    if p.tokens != [] {
      PopSkipAttaches(p);
    }
  }

  /** Opening a collection: the new state sits inside one more slot. */
  lemma {:induction false} OpenSound(p: PState, e: Event, s: State)
    requires NodeDue(p) && p.tokens != []
    requires (e.SequenceStart? && Current(s) == [Item]) || (e.MappingStart? && Current(s) == [Key])
    requires MarkOf(s) == 0
    ensures Sound(Expect(Stacked(p.states)), Emit(e, p.(state := s)))
  {
  }

  lemma {:induction false} ParseContentSound(p: PState, block: bool, indentless: bool, anchor: Option<string>,
                                             tag: string)
    requires NodeDue(p) && p.tokens != []
    ensures Sound(Expect(Stacked(p.states)), ParseContent(p, block, indentless, anchor, tag))
  {
    var t := p.tokens[0];
    var implicit := tag == "";
    if indentless && t.BlockEntryT? {
      OpenSound(p, SequenceStart(anchor, tag, implicit, Block), SIndentlessSequenceEntry);
    } else if t.ScalarT? {
      EmitNodeSound(p, ScalarEvent(anchor, tag, t.value, t.style));
    } else if t.FlowSequenceStartT? {
      OpenSound(p, SequenceStart(anchor, tag, implicit, Flow), SFlowSequenceFirstEntry);
    } else if t.FlowMappingStartT? {
      OpenSound(p, MappingStart(anchor, tag, implicit, Flow), SFlowMappingFirstKey);
    } else if block && t.BlockSequenceStartT? {
      OpenSound(p, SequenceStart(anchor, tag, implicit, Block), SBlockSequenceFirstEntry);
    } else if block && t.BlockMappingStartT? {
      OpenSound(p, MappingStart(anchor, tag, implicit, Block), SBlockMappingFirstKey);
    } else {
      EmitNodeSound(p, Scalar(anchor, tag, "", implicit, false, Plain));
    }
  }

  lemma {:induction false} ParseNodeSound(p: PState, block: bool, indentless: bool)
    requires NodeDue(p)
    ensures Sound(Expect(Stacked(p.states)), ParseNode(p, block, indentless))
  {
    if p.tokens != [] {
      if p.tokens[0].AliasT? {
        EmitNodeSound(p, Alias(p.tokens[0].name));
      } else {
        match ParseProperties(p) {
          case None =>
          case Some(props) =>
            assert props.rest == p.(tokens := props.rest.tokens) && props.rest.tokens != [];
            match ResolveTag(props.rest.tags, props.tag) {
              case None =>
              case Some(tag) => ParseContentSound(props.rest, block, indentless, props.anchor, tag);
            }
        }
      }
    }
  }

  /** Parsing a node as the next member of the collection that return state `s` stands for. */
  lemma {:induction false} MemberSound(p: PState, s: State, block: bool, indentless: bool)
    requires DocumentStack(p.states) && IsReturnState(s) && |p.marks| == MarksOf(p.states) + MarkOf(s)
    ensures Sound(Expect(Stacked(p.states) + Pushed(s)), ParseNode(Push(p, s), block, indentless))
  {
    PushStacked(p, s);
    ParseNodeSound(Push(p, s), block, indentless);
  }

  /** An omitted node is emitted as an empty scalar without going through the stack. */
  lemma {:induction false} EmptySound(p: PState, s: State)
    requires DocumentStack(p.states) && IsReturnState(s) && |p.marks| == MarksOf(p.states) + MarkOf(s)
    ensures Sound(Expect(Stacked(p.states) + Pushed(s)), EmitEmpty(p, s))
  {
    ReturnAttaches(Stacked(p.states), s);
  }

  lemma CloseIs(p: PState, e: Event)
    requires p.tokens != [] && p.states != [] && p.marks != []
    ensures EmitClose(p, e) == Emit(e, Skip(PopTo(p.(marks := p.marks[..|p.marks| - 1]))))
  {
  }

  /** Closing the innermost collection, whose mark is on top of the mark stack. */
  lemma {:induction false} CloseSound(p: PState, e: Event)
    requires p.tokens != [] && DocumentStack(p.states) && |p.marks| == MarksOf(p.states) + 1
    requires e.SequenceEnd? || e.MappingEnd?
    ensures Sound(Expect(Stacked(p.states) + [if e.SequenceEnd? then Item else Key]), EmitClose(p, e))
  {
    var q := p.(marks := p.marks[..|p.marks| - 1]);
    CloseIs(p, e);
    PopSkipAttaches(q);
    CloseInnermost(Stacked(p.states));
  }

  /** Inside a document, in a collection state that has already pushed its mark. */
  ghost predicate InCollection(p: PState, s: State) {
    DocumentStack(p.states) && Current(s) != [] && !IsFirst(s) && |p.marks| == MarksOf(p.states) + MarkOf(s)
  }

  lemma {:induction false} BlockSequenceEntrySound(p: PState)
    requires InCollection(p, SBlockSequenceEntry)
    ensures Sound(Expect(Stacked(p.states) + [Item]), ParseBlockSequenceEntry(p))
  {
    if p.tokens != [] {
      if p.tokens[0].BlockEntryT? {
        MemberSound(Skip(p), SBlockSequenceEntry, true, false);
        EmptySound(Skip(p), SBlockSequenceEntry);
      } else if p.tokens[0].BlockEndT? {
        CloseSound(p, SequenceEnd);
      }
    }
  }

  lemma {:induction false} IndentlessSequenceEntrySound(p: PState)
    requires InCollection(p, SIndentlessSequenceEntry)
    ensures Sound(Expect(Stacked(p.states) + [Item]), ParseIndentlessSequenceEntry(p))
  {
    if p.tokens != [] {
      if p.tokens[0].BlockEntryT? {
        MemberSound(Skip(p), SIndentlessSequenceEntry, true, false);
        EmptySound(Skip(p), SIndentlessSequenceEntry);
      } else {
        PopAttaches(p);
        CloseInnermost(Stacked(p.states));
      }
    }
  }

  lemma {:induction false} BlockMappingKeySound(p: PState)
    requires InCollection(p, SBlockMappingKey)
    ensures Sound(Expect(Stacked(p.states) + [Key]), ParseBlockMappingKey(p))
  {
    if p.tokens != [] {
      if p.tokens[0].KeyT? {
        MemberSound(Skip(p), SBlockMappingValue, true, true);
        EmptySound(Skip(p), SBlockMappingValue);
      } else if p.tokens[0].BlockEndT? {
        CloseSound(p, MappingEnd);
      }
    }
  }

  lemma {:induction false} BlockMappingValueSound(p: PState)
    requires InCollection(p, SBlockMappingValue)
    ensures Sound(Expect(Stacked(p.states) + [Value]), ParseBlockMappingValue(p))
  {
    if p.tokens != [] {
      EmptySound(p, SBlockMappingKey);
      if p.tokens[0].ValueT? {
        MemberSound(Skip(p), SBlockMappingKey, true, true);
        EmptySound(Skip(p), SBlockMappingKey);
      }
    }
  }

  lemma {:induction false} FlowSequenceItemSound(p: PState)
    requires InCollection(p, SFlowSequenceEntry) && p.tokens != []
    ensures Sound(Expect(Stacked(p.states) + [Item]), ParseFlowSequenceItem(p))
  {
    if p.tokens[0].KeyT? {
      assert Stacked(p.states) + [Item] + [Key] == Stacked(p.states) + [Item, Key];
    } else {
      MemberSound(p, SFlowSequenceEntry, false, false);
      CloseSound(p, SequenceEnd);
    }
  }

  lemma {:induction false} FlowSequenceEntrySound(p: PState, first: bool)
    requires InCollection(p, SFlowSequenceEntry)
    ensures Sound(Expect(Stacked(p.states) + [Item]), ParseFlowSequenceEntry(p, first))
  {
    if p.tokens != [] {
      CloseSound(p, SequenceEnd);
      FlowSequenceItemSound(p);
      if Skip(p).tokens != [] {
        FlowSequenceItemSound(Skip(p));
      }
    }
  }

  lemma {:induction false} FlowSequenceEntryMappingKeySound(p: PState)
    requires InCollection(p, SFlowSequenceEntryMappingKey)
    ensures Sound(Expect(Stacked(p.states) + [Item, Key]), ParseFlowSequenceEntryMappingKey(p))
  {
    if p.tokens != [] {
      MemberSound(p, SFlowSequenceEntryMappingValue, false, false);
      EmptySound(Skip(p), SFlowSequenceEntryMappingValue);
    }
  }

  lemma {:induction false} CloseSinglePair(base: seq<Slot>)
    ensures Next(Expect(base + [Item, Key]), MappingEnd) == Some(Expect(base + [Item]))
  {
    assert base + [Item, Key] == (base + [Item]) + [Key];
    CloseInnermost(base + [Item]);
    ReturnAttaches(base, SFlowSequenceEntry);
  }

  lemma {:induction false} FlowSequenceEntryMappingEndSound(p: PState)
    requires InCollection(p, SFlowSequenceEntryMappingEnd)
    ensures Sound(Expect(Stacked(p.states) + [Item, Key]), ParseFlowSequenceEntryMappingEnd(p))
  {
    CloseSinglePair(Stacked(p.states));
  }

  lemma {:induction false} FlowSequenceEntryMappingValueSound(p: PState)
    requires InCollection(p, SFlowSequenceEntryMappingValue)
    ensures Sound(Expect(Stacked(p.states) + [Item, Value]), ParseFlowSequenceEntryMappingValue(p))
  {
    if p.tokens != [] {
      EmptySound(p, SFlowSequenceEntryMappingEnd);
      if p.tokens[0].ValueT? {
        MemberSound(Skip(p), SFlowSequenceEntryMappingEnd, false, false);
        EmptySound(Skip(p), SFlowSequenceEntryMappingEnd);
      }
    }
  }

  lemma {:induction false} FlowMappingItemSound(p: PState)
    requires InCollection(p, SFlowMappingKey) && p.tokens != []
    ensures Sound(Expect(Stacked(p.states) + [Key]), ParseFlowMappingItem(p))
  {
    if p.tokens[0].KeyT? {
      KeyedItemSound(p);
    } else {
      MemberSound(p, SFlowMappingEmptyValue, false, false);
      CloseSound(p, MappingEnd);
    }
  }

  lemma {:induction false} KeyedItemSound(p: PState)
    requires InCollection(p, SFlowMappingKey) && p.tokens != [] && p.tokens[0].KeyT?
    ensures Sound(Expect(Stacked(p.states) + [Key]), ParseFlowMappingItem(p))
  {
    MemberSound(Skip(p), SFlowMappingValue, false, false);
    EmptySound(Skip(p), SFlowMappingValue);
  }

  lemma {:induction false} FlowMappingKeySound(p: PState, first: bool)
    requires InCollection(p, SFlowMappingKey)
    ensures Sound(Expect(Stacked(p.states) + [Key]), ParseFlowMappingKey(p, first))
  {
    if p.tokens != [] {
      CloseSound(p, MappingEnd);
      FlowMappingItemSound(p);
      if Skip(p).tokens != [] {
        FlowMappingItemSound(Skip(p));
      }
    }
  }

  lemma {:induction false} FlowMappingValueSound(p: PState, empty: bool)
    requires InCollection(p, SFlowMappingValue)
    ensures Sound(Expect(Stacked(p.states) + [Value]), ParseFlowMappingValue(p, empty))
  {
    if p.tokens != [] {
      EmptySound(p, SFlowMappingKey);
      if p.tokens[0].ValueT? {
        MemberSound(Skip(p), SFlowMappingKey, false, false);
        EmptySound(Skip(p), SFlowMappingKey);
      }
    }
  }

  lemma {:induction false} ProcessDirectivesKeeps(p: PState, version: bool, tags: seq<TagDirective>)
    ensures match ProcessDirectives(p, version, tags)
            case Err(_) => true
            case Ok(d) => d.rest == p.(tags := d.rest.tags, tokens := d.rest.tokens) && d.rest.tokens != []
    decreases |p.tokens|
  {
    if p.tokens != [] {
      match p.tokens[0]
      case VersionT(_, _) =>
        ProcessDirectivesKeeps(Skip(p), true, tags);
      case TagDirectiveT(d) =>
        match AppendTag(p.tags, d, false) {
          case Err(_) =>
          case Ok(all) => ProcessDirectivesKeeps(Skip(p.(tags := all)), version, tags + [d]);
        }
      case _ =>
    }
  }

  lemma {:induction false} SkipDocumentEndsKeeps(p: PState)
    ensures SkipDocumentEnds(p) == p.(tokens := SkipDocumentEnds(p).tokens)
    decreases |p.tokens|
  {
    if p.tokens != [] && p.tokens[0].DocumentEndT? {
      SkipDocumentEndsKeeps(Skip(p));
    }
  }

  lemma {:induction false} RootStack()
    ensures DocumentStack([SDocumentEnd]) && Stacked([SDocumentEnd]) == [] && MarksOf([SDocumentEnd]) == 0
  {
  }

  lemma {:induction false} DocumentOpens(p: PState, s: State, e: Event)
    requires p.states == [] && p.marks == [] && e.DocumentStart? && (s.SBlockNode? || s.SDocumentContent?)
    ensures Sound(Between, Emit(e, Push(p, SDocumentEnd).(state := s)))
  {
    var q := p.(states := [SDocumentEnd], state := s);
    assert Push(p, SDocumentEnd).(state := s) == q by {
      assert [] + [SDocumentEnd] == [SDocumentEnd];
    }
    RootStack();
    assert Position(q) == Expect([]) by {
      assert Stacked([SDocumentEnd]) + Current(s) == [];
    }
  }

  /** The two ways a document may start after its directives. */
  lemma {:induction false} DirectivesOpen(q: PState)
    requires q.states == [] && q.marks == []
    ensures match ProcessDirectives(q, false, [])
            case Err(_) => true
            case Ok(d) =>
              && d.rest.tokens != []
              && Sound(Between, Emit(DocumentStart(false, [], false), Push(d.rest, SDocumentEnd).(state := SBlockNode)))
              && Sound(Between, Emit(DocumentStart(d.version, d.tags, false),
                                     Push(Skip(d.rest), SDocumentEnd).(state := SDocumentContent)))
  {
    ProcessDirectivesKeeps(q, false, []);
    match ProcessDirectives(q, false, []) {
      case Err(_) =>
      case Ok(d) =>
        DocumentOpens(d.rest, SBlockNode, DocumentStart(false, [], false));
        DocumentOpens(Skip(d.rest), SDocumentContent, DocumentStart(d.version, d.tags, false));
    }
  }

  lemma {:induction false} StreamCloses(q: PState)
    requires q.states == [] && q.marks == [] && q.tokens != []
    ensures Sound(Between, Emit(StreamEnd, Skip(q).(state := SEnd)))
  {
  }

  /** The outcomes of starting a document at `q`, the DOCUMENT-ENDs before it being skipped. */
  ghost predicate Starts(q: PState, o: Outcome) {
    || o.Fail?
    || (q.tokens != [] && o == Emit(StreamEnd, Skip(q).(state := SEnd)))
    || match ProcessDirectives(q, false, [])
       case Err(_) => false
       case Ok(d) =>
         || o == Emit(DocumentStart(false, [], false), Push(d.rest, SDocumentEnd).(state := SBlockNode))
         || (d.rest.tokens != []
             && o == Emit(DocumentStart(d.version, d.tags, false),
                          Push(Skip(d.rest), SDocumentEnd).(state := SDocumentContent)))
  }

  lemma DocumentStartsSo(p: PState, implicit: bool)
    ensures Starts(if implicit then p else SkipDocumentEnds(p), ParseDocumentStart(p, implicit))
  {
  }

  lemma {:induction false} StartsSound(q: PState, o: Outcome)
    requires q.states == [] && q.marks == [] && Starts(q, o)
    ensures Sound(Between, o)
  {
    DirectivesOpen(q);
    if q.tokens != [] {
      StreamCloses(q);
    }
  }

  lemma {:induction false} DocumentStartSound(p: PState, implicit: bool)
    requires p.states == [] && p.marks == []
    ensures Sound(Between, ParseDocumentStart(p, implicit))
  {
    SkipDocumentEndsKeeps(p);
    DocumentStartsSo(p, implicit);
    StartsSound(if implicit then p else SkipDocumentEnds(p), ParseDocumentStart(p, implicit));
  }

  /** States reached through a stack: one lemma per kind of collection. */
  lemma {:induction false} CollectionStepSound(p: PState)
    requires Inv(p) && Current(p.state) != [] && !IsFirst(p.state)
    ensures Sound(Position(p), Step(p))
  {
    assert InCollection(p, p.state);
    match p.state {
      case SBlockSequenceEntry => BlockSequenceEntrySound(p);
      case SIndentlessSequenceEntry => IndentlessSequenceEntrySound(p);
      case SBlockMappingKey => BlockMappingKeySound(p);
      case SBlockMappingValue => BlockMappingValueSound(p);
      case SFlowSequenceEntry => FlowSequenceEntrySound(p, false);
      case SFlowSequenceEntryMappingKey => FlowSequenceEntryMappingKeySound(p);
      case SFlowSequenceEntryMappingValue => FlowSequenceEntryMappingValueSound(p);
      case SFlowSequenceEntryMappingEnd => FlowSequenceEntryMappingEndSound(p);
      case SFlowMappingKey => FlowMappingKeySound(p, false);
      case SFlowMappingValue => FlowMappingValueSound(p, false);
      case SFlowMappingEmptyValue => FlowMappingValueSound(p, true);
    }
  }

  lemma {:induction false} FirstStepSound(p: PState)
    requires Inv(p) && IsFirst(p.state)
    ensures Sound(Position(p), Step(p))
  {
    var q := Enter(p).value;
    if p.state.SBlockSequenceFirstEntry? || p.state.SBlockMappingFirstKey? {
      if p.state.SBlockSequenceFirstEntry? {
        BlockSequenceEntrySound(q);
      } else {
        BlockMappingKeySound(q);
      }
    } else {
      FirstFlowStepSound(p);
    }
  }

  lemma {:induction false} FirstEntrySound(p: PState)
    requires Inv(p) && p.state.SFlowSequenceFirstEntry?
    ensures Sound(Position(p), Step(p))
  {
    var q := Enter(p).value;
    assert Step(p) == ParseFlowSequenceEntry(q, true) && Position(p) == Expect(Stacked(q.states) + [Item]);
    FlowSequenceEntrySound(q, true);
  }

  lemma {:induction false} FirstKeyStep(p: PState)
    requires Inv(p) && p.state.SFlowMappingFirstKey?
    ensures Enter(p).Some? && InCollection(Enter(p).value, SFlowMappingKey)
    ensures Step(p) == ParseFlowMappingKey(Enter(p).value, true)
    ensures Position(p) == Expect(Stacked(Enter(p).value.states) + [Key])
  {
  }

  lemma {:induction false} FirstKeySound(p: PState)
    requires Inv(p) && p.state.SFlowMappingFirstKey?
    ensures Sound(Position(p), Step(p))
  {
    FirstKeyStep(p);
    FlowMappingKeySound(Enter(p).value, true);
  }

  lemma {:induction false} FirstFlowStepSound(p: PState)
    requires Inv(p) && (p.state.SFlowSequenceFirstEntry? || p.state.SFlowMappingFirstKey?)
    ensures Sound(Position(p), Step(p))
  {
    if p.state.SFlowSequenceFirstEntry? {
      FirstEntrySound(p);
    } else {
      FirstKeySound(p);
    }
  }

  /** One step from any reachable state: no panic, and the emitted event is one the grammar allows. */
  lemma {:induction false} StepSound(p: PState)
    requires Inv(p) && p.state != SEnd
    ensures Sound(Position(p), Step(p))
  {
    if IsFirst(p.state) {
      FirstStepSound(p);
    } else if Current(p.state) != [] {
      CollectionStepSound(p);
    } else if !OutsideDocument(p.state) {
      assert Stacked(p.states) + [] == Stacked(p.states);
      ParseNodeSound(p, true, false);
      EmitNodeSound(p, EmptyScalar);
    } else if p.state.SImplicitDocumentStart? || p.state.SDocumentStart? {
      DocumentStartSound(p, p.state.SImplicitDocumentStart?);
    }
  }

  /** Over a whole run: the invariant holds and the automaton has followed every event. */
  lemma {:induction false} RunSound(p: PState, events: seq<Event>, q: PState)
    requires Inv(p) && Reaches(p, events, q)
    ensures Inv(q) && Run(Position(p), events) == Some(Position(q))
    decreases |events|
  {
    if events != [] {
      StepSound(p);
      RunSound(Step(p).next, events[1..], q);
    }
  }

  /**
   Main result.  Whatever the tokens, the events returned so far extend to a word of the
   grammar; the next step cannot panic; and once STREAM-END has been returned the events
   are exactly the flattening of a sequence of document trees.
   */
  lemma {:induction false} ParserSpeaksGrammar(tokens: seq<Token>, events: seq<Event>, q: PState)
    requires Reaches(Initial(tokens), events, q)
    ensures IsPrefixOfWord(events)
    ensures q.state != SEnd ==> Step(q) != Panic
    ensures q.state == SEnd <==> IsWord(events)
    ensures q.state == SEnd ==> q.states == [] && q.marks == []
  {
    RunSound(Initial(tokens), events, q);
    AutomatonIsGrammar(events);
    if q.state != SEnd {
      StepSound(q);
    }
  }
}
