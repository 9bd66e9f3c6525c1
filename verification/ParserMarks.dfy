/**
 The parser's mark stack.  Over every run, on any tokens, every mark names the start token of a
 collection that is still open, the innermost last, and tokens that end in STREAM-END never run
 out.
 */
module ParserMarks {
  import opened Wrappers
  import opened G = EventGrammar
  import opened ParserSpec

  // ---------- marks ----------

  /** The start token of the collection a state belongs to, for those that keep a mark. */
  function Own(s: State): seq<Token> {
    match s
    case SBlockSequenceEntry => [BlockSequenceStartT]
    case SBlockMappingKey => [BlockMappingStartT]
    case SBlockMappingValue => [BlockMappingStartT]
    case SFlowSequenceEntry => [FlowSequenceStartT]
    case SFlowSequenceEntryMappingKey => [FlowSequenceStartT]
    case SFlowSequenceEntryMappingValue => [FlowSequenceStartT]
    case SFlowSequenceEntryMappingEnd => [FlowSequenceStartT]
    case SFlowMappingKey => [FlowMappingStartT]
    case SFlowMappingValue => [FlowMappingStartT]
    case SFlowMappingEmptyValue => [FlowMappingStartT]
    case _ => []
  }

  function Openers(states: seq<State>): seq<Token> {
    if states == [] then [] else Openers(states[..|states| - 1]) + Own(states[|states| - 1])
  }

  /** Mark `m` names a token `t` already taken when `left` tokens are left of `all`. */
  ghost predicate Names(all: seq<Token>, left: nat, m: Mark, t: Token) { left < m <= |all| && all[|all| - m] == t }

  ghost predicate AllNamed(all: seq<Token>, left: nat, marks: seq<Mark>, starts: seq<Token>) {
    && |marks| == |starts|
    && (forall i :: 0 <= i < |marks| ==> Names(all, left, marks[i], starts[i]))
    && forall i, j :: 0 <= i < j < |marks| ==> marks[i] > marks[j]
  }

  ghost predicate Left(all: seq<Token>, p: PState) {
    |p.tokens| <= |all| && p.tokens == all[|all| - |p.tokens|..]
  }

  predicate IsFirst(s: State) {
    s.SBlockSequenceFirstEntry? || s.SBlockMappingFirstKey? || s.SFlowSequenceFirstEntry? || s.SFlowMappingFirstKey?
  }

  /** The start token a collection about to be entered has in front of it. */
  function StartOf(s: State): Token {
    match s
    case SBlockSequenceFirstEntry => BlockSequenceStartT
    case SBlockMappingFirstKey => BlockMappingStartT
    case SFlowSequenceFirstEntry => FlowSequenceStartT
    case _ => FlowMappingStartT
  }

  predicate BeforeDocument(s: State) { s.SStreamStart? || s.SImplicitDocumentStart? || s.SDocumentStart? }

  /** Only the document end and the states inside documents are ever returned to. */
  ghost predicate Returns(states: seq<State>) {
    forall i :: 0 <= i < |states| ==> !IsFirst(states[i]) && !BeforeDocument(states[i])
  }

  /** Outside the open collection, if any, that `p.state` is about to continue. */
  ghost predicate Within(all: seq<Token>, p: PState, starts: seq<Token>) {
    && Left(all, p) && Returns(p.states)
    && AllNamed(all, |p.tokens|, p.marks, Openers(p.states) + starts)
  }

  /** The marks name, from the outermost to the innermost, the start tokens of the open collections. */
  ghost predicate Marked(all: seq<Token>, p: PState) {
    && Within(all, p, Own(p.state))
    && (IsFirst(p.state) ==> p.tokens != [] && p.tokens[0] == StartOf(p.state))
    && (BeforeDocument(p.state) ==> p.tags == [])
    && (all != [] && all[|all| - 1].StreamEndT? && p.state != SEnd ==> p.tokens != [])
  }

  ghost predicate Marks(all: seq<Token>, o: Outcome) { o.Emit? ==> Marked(all, o.next) }

  /** Only the tokens left, the stack and the marks matter. */
  lemma {:induction false} SameWithin(all: seq<Token>, p: PState, q: PState, starts: seq<Token>)
    requires Within(all, p, starts) && q.tokens == p.tokens && q.states == p.states && q.marks == p.marks
    ensures Within(all, q, starts)
  {
  }

  lemma {:induction false} LeftSkip(all: seq<Token>, p: PState)
    requires Left(all, p) && p.tokens != []
    ensures Left(all, Skip(p))
    ensures all[|all| - 1] == p.tokens[|p.tokens| - 1]
    ensures all[|all| - 1].StreamEndT? && !p.tokens[0].StreamEndT? ==> Skip(p).tokens != []
  {
  }

  lemma {:induction false} NamedFewer(all: seq<Token>, left: nat, fewer: nat, marks: seq<Mark>, starts: seq<Token>)
    requires AllNamed(all, left, marks, starts) && fewer <= left
    ensures AllNamed(all, fewer, marks, starts)
  {
  }

  lemma {:induction false} SkipWithin(all: seq<Token>, p: PState, starts: seq<Token>)
    requires Within(all, p, starts) && p.tokens != []
    ensures Within(all, Skip(p), starts)
  {
    LeftSkip(all, p);
    NamedFewer(all, |p.tokens|, |p.tokens| - 1, p.marks, Openers(p.states) + starts);
  }

  lemma {:induction false} PushWithin(all: seq<Token>, p: PState, s: State)
    requires Within(all, p, Own(s)) && !IsFirst(s) && !BeforeDocument(s)
    ensures Within(all, Push(p, s), [])
  {
    assert (p.states + [s])[..|p.states|] == p.states;
    assert Openers(p.states + [s]) + [] == Openers(p.states) + Own(s);
  }

  lemma {:induction false} PopWithin(all: seq<Token>, p: PState)
    requires Within(all, p, []) && p.states != []
    ensures Within(all, PopTo(p), Own(PopTo(p).state)) && Returns([PopTo(p).state])
  {
    assert Openers(p.states) + [] == Openers(p.states);
  }

  /** What is left of `all` when a node is due: something, if `all` ends in STREAM-END. */
  ghost predicate Fed(all: seq<Token>, p: PState) {
    all != [] && all[|all| - 1].StreamEndT? ==> p.tokens != []
  }

  lemma {:induction false} FedSkip(all: seq<Token>, p: PState)
    requires Left(all, p) && p.tokens != [] && !p.tokens[0].StreamEndT?
    ensures Fed(all, Skip(p))
  {
    LeftSkip(all, p);
  }

  lemma {:induction false} PopMarks(all: seq<Token>, p: PState, e: Event)
    requires Within(all, p, []) && Fed(all, p)
    ensures Marks(all, EmitNode(p, e))
  {
    if p.states != [] {
      PopWithin(all, p);
    }
  }

  lemma {:induction false} OpenMarks(all: seq<Token>, p: PState, e: Event, s: State)
    requires Within(all, p, []) && p.tokens != [] && Own(s) == [] && !BeforeDocument(s)
    requires IsFirst(s) ==> p.tokens[0] == StartOf(s)
    ensures Marks(all, Emit(e, p.(state := s)))
  {
  }

  lemma {:induction false} ContentMarks(all: seq<Token>, p: PState, block: bool, indentless: bool,
                                        anchor: Option<string>, tag: string)
    requires p.tokens != [] && Within(all, p, [])
    ensures Marks(all, ParseContent(p, block, indentless, anchor, tag))
  {
    var t := p.tokens[0];
    var implicit := tag == "";
    if indentless && t.BlockEntryT? {
      OpenMarks(all, p, SequenceStart(anchor, tag, implicit, Block), SIndentlessSequenceEntry);
    } else if t.ScalarT? {
      if p.states != [] {
        SkipWithin(all, p, []);
        FedSkip(all, p);
        PopMarks(all, Skip(p), ScalarEvent(anchor, tag, t.value, t.style));
      }
    } else if t.FlowSequenceStartT? {
      OpenMarks(all, p, SequenceStart(anchor, tag, implicit, Flow), SFlowSequenceFirstEntry);
    } else if t.FlowMappingStartT? {
      OpenMarks(all, p, MappingStart(anchor, tag, implicit, Flow), SFlowMappingFirstKey);
    } else if block && t.BlockSequenceStartT? {
      OpenMarks(all, p, SequenceStart(anchor, tag, implicit, Block), SBlockSequenceFirstEntry);
    } else if block && t.BlockMappingStartT? {
      OpenMarks(all, p, MappingStart(anchor, tag, implicit, Block), SBlockMappingFirstKey);
    } else {
      PopMarks(all, p, Scalar(anchor, tag, "", implicit, false, Plain));
    }
  }

  lemma {:induction false} PropertiesWithin(all: seq<Token>, p: PState)
    requires p.tokens != [] && Within(all, p, [])
    ensures match ParseProperties(p)
            case None => true
            case Some(r) => Within(all, r.rest, []) && r.rest.tokens != [] && r.rest.states == p.states
  {
    SkipWithin(all, p, []);
    if |p.tokens| > 1 {
      SkipWithin(all, Skip(p), []);
    }
  }

  lemma {:induction false} NodeMarks(all: seq<Token>, p: PState, block: bool, indentless: bool)
    requires Within(all, p, [])
    ensures Marks(all, ParseNode(p, block, indentless))
  {
    if p.tokens == [] {
    } else if p.tokens[0].AliasT? {
      if p.states != [] {
        SkipWithin(all, p, []);
        FedSkip(all, p);
        PopMarks(all, Skip(p), Alias(p.tokens[0].name));
      }
    } else {
      PropertiesWithin(all, p);
      match ParseProperties(p) {
        case None =>
        case Some(props) =>
          match ResolveTag(props.rest.tags, props.tag) {
            case None =>
            case Some(tag) => ContentMarks(all, props.rest, block, indentless, props.anchor, tag);
          }
      }
    }
  }

  lemma {:induction false} MemberMarks(all: seq<Token>, p: PState, s: State, block: bool, indentless: bool)
    requires Within(all, p, Own(s)) && !IsFirst(s) && !BeforeDocument(s)
    ensures Marks(all, ParseNode(Push(p, s), block, indentless))
  {
    PushWithin(all, p, s);
    NodeMarks(all, Push(p, s), block, indentless);
  }

  lemma {:induction false} EmptyMarks(all: seq<Token>, p: PState, s: State)
    requires Within(all, p, Own(s)) && Fed(all, p) && !IsFirst(s) && !BeforeDocument(s)
    ensures Marks(all, EmitEmpty(p, s))
  {
    SameWithin(all, p, p.(state := s), Own(s));
  }

  /** After a token inside a collection comes a node, or nothing. */
  lemma {:induction false} PartMarks(all: seq<Token>, p: PState, s: State, block: bool, indentless: bool)
    requires p.tokens != [] && !p.tokens[0].StreamEndT?
    requires Within(all, p, Own(s)) && !IsFirst(s) && !BeforeDocument(s)
    ensures Marks(all, ParseNode(Push(Skip(p), s), block, indentless))
    ensures Marks(all, EmitEmpty(Skip(p), s))
  {
    SkipWithin(all, p, Own(s));
    FedSkip(all, p);
    MemberMarks(all, Skip(p), s, block, indentless);
    EmptyMarks(all, Skip(p), s);
  }

  lemma {:induction false} CloseMarks(all: seq<Token>, p: PState, t: Token, e: Event)
    requires Within(all, p, [t]) && p.tokens != [] && !p.tokens[0].StreamEndT?
    ensures Marks(all, EmitClose(p, e))
  {
    if p.states != [] && p.marks != [] {
      SkipWithin(all, p, [t]);
      FedSkip(all, p);
      var n := |p.marks| - 1;
      var q := Skip(p).(marks := p.marks[..n]);
      assert (Openers(p.states) + [t])[..n] == Openers(p.states) + [];
      assert Within(all, q, []);
      PopMarks(all, q, e);
    }
  }

  lemma {:induction false} BlockSequenceEntryMarks(all: seq<Token>, p: PState)
    requires Within(all, p, [BlockSequenceStartT])
    ensures Marks(all, ParseBlockSequenceEntry(p))
  {
    if p.tokens != [] && p.tokens[0].BlockEntryT? {
      PartMarks(all, p, SBlockSequenceEntry, true, false);
    } else if p.tokens != [] && p.tokens[0].BlockEndT? {
      CloseMarks(all, p, BlockSequenceStartT, SequenceEnd);
    }
  }

  lemma {:induction false} IndentlessSequenceEntryMarks(all: seq<Token>, p: PState)
    requires Within(all, p, [])
    ensures Marks(all, ParseIndentlessSequenceEntry(p))
  {
    if p.tokens != [] && p.tokens[0].BlockEntryT? {
      PartMarks(all, p, SIndentlessSequenceEntry, true, false);
    } else if p.tokens != [] {
      PopMarks(all, p, SequenceEnd);
    }
  }

  lemma {:induction false} BlockMappingKeyMarks(all: seq<Token>, p: PState)
    requires Within(all, p, [BlockMappingStartT])
    ensures Marks(all, ParseBlockMappingKey(p))
  {
    if p.tokens != [] && p.tokens[0].KeyT? {
      PartMarks(all, p, SBlockMappingValue, true, true);
    } else if p.tokens != [] && p.tokens[0].BlockEndT? {
      CloseMarks(all, p, BlockMappingStartT, MappingEnd);
    }
  }

  lemma {:induction false} BlockMappingValueMarks(all: seq<Token>, p: PState)
    requires Within(all, p, [BlockMappingStartT])
    ensures Marks(all, ParseBlockMappingValue(p))
  {
    if p.tokens != [] && p.tokens[0].ValueT? {
      PartMarks(all, p, SBlockMappingKey, true, true);
    }
  }

  lemma {:induction false} FlowSequenceItemMarks(all: seq<Token>, p: PState)
    requires Within(all, p, [FlowSequenceStartT]) && p.tokens != []
    ensures Marks(all, ParseFlowSequenceItem(p))
  {
    if p.tokens[0].KeyT? {
      SkipWithin(all, p, [FlowSequenceStartT]);
      FedSkip(all, p);
    } else if p.tokens[0].FlowSequenceEndT? {
      CloseMarks(all, p, FlowSequenceStartT, SequenceEnd);
    } else {
      MemberMarks(all, p, SFlowSequenceEntry, false, false);
    }
  }

  lemma {:induction false} FlowSequenceEntryMarks(all: seq<Token>, p: PState, first: bool)
    requires Within(all, p, [FlowSequenceStartT])
    ensures Marks(all, ParseFlowSequenceEntry(p, first))
  {
    if p.tokens != [] {
      FlowSequenceItemMarks(all, p);
      if p.tokens[0].FlowSequenceEndT? {
        CloseMarks(all, p, FlowSequenceStartT, SequenceEnd);
      } else if p.tokens[0].FlowEntryT? && |p.tokens| > 1 {
        SkipWithin(all, p, [FlowSequenceStartT]);
        FlowSequenceItemMarks(all, Skip(p));
      }
    }
  }

  lemma {:induction false} PairKeyMarks(all: seq<Token>, p: PState)
    requires Within(all, p, [FlowSequenceStartT])
    ensures Marks(all, ParseFlowSequenceEntryMappingKey(p))
  {
    if p.tokens != [] && (p.tokens[0].ValueT? || p.tokens[0].FlowEntryT? || p.tokens[0].FlowSequenceEndT?) {
      PartMarks(all, p, SFlowSequenceEntryMappingValue, false, false);
    } else {
      MemberMarks(all, p, SFlowSequenceEntryMappingValue, false, false);
    }
  }

  lemma {:induction false} PairValueMarks(all: seq<Token>, p: PState)
    requires Within(all, p, [FlowSequenceStartT])
    ensures Marks(all, ParseFlowSequenceEntryMappingValue(p))
  {
    if p.tokens != [] && p.tokens[0].ValueT? {
      PartMarks(all, p, SFlowSequenceEntryMappingEnd, false, false);
    }
  }

  lemma {:induction false} FlowKeyedMarks(all: seq<Token>, p: PState)
    requires Within(all, p, [FlowMappingStartT]) && p.tokens != [] && p.tokens[0].KeyT?
    ensures Marks(all, ParseFlowMappingItem(p))
  {
    PartMarks(all, p, SFlowMappingValue, false, false);
  }

  lemma {:induction false} FlowMappingItemMarks(all: seq<Token>, p: PState)
    requires Within(all, p, [FlowMappingStartT]) && p.tokens != []
    ensures Marks(all, ParseFlowMappingItem(p))
  {
    if p.tokens[0].KeyT? {
      FlowKeyedMarks(all, p);
    } else if p.tokens[0].FlowMappingEndT? {
      CloseMarks(all, p, FlowMappingStartT, MappingEnd);
    } else {
      MemberMarks(all, p, SFlowMappingEmptyValue, false, false);
    }
  }

  lemma {:induction false} FlowMappingKeyMarks(all: seq<Token>, p: PState, first: bool)
    requires Within(all, p, [FlowMappingStartT])
    ensures Marks(all, ParseFlowMappingKey(p, first))
  {
    if p.tokens != [] {
      FlowMappingItemMarks(all, p);
      if p.tokens[0].FlowMappingEndT? {
        CloseMarks(all, p, FlowMappingStartT, MappingEnd);
      } else if p.tokens[0].FlowEntryT? && |p.tokens| > 1 {
        SkipWithin(all, p, [FlowMappingStartT]);
        FlowMappingItemMarks(all, Skip(p));
      }
    }
  }

  lemma {:induction false} FlowMappingValueMarks(all: seq<Token>, p: PState, empty: bool)
    requires Within(all, p, [FlowMappingStartT])
    ensures Marks(all, ParseFlowMappingValue(p, empty))
  {
    if p.tokens != [] {
      EmptyMarks(all, p, SFlowMappingKey);
      if !empty && p.tokens[0].ValueT? {
        PartMarks(all, p, SFlowMappingKey, false, false);
      }
    }
  }

  // ---------- one step and whole runs ----------

  /** The parser past the start token of the collection it is about to enter. */
  function Inside(p: PState): PState {
    if IsFirst(p.state) && p.tokens != [] then Skip(p.(marks := p.marks + [|p.tokens|])) else p
  }

  lemma {:induction false} NamedMore(all: seq<Token>, left: nat, marks: seq<Mark>, starts: seq<Token>, t: Token)
    requires AllNamed(all, left, marks, starts) && 0 < left <= |all| && all[|all| - left] == t
    ensures AllNamed(all, left - 1, marks + [left], starts + [t])
  {
  }

  lemma {:induction false} EnterWithin(all: seq<Token>, p: PState)
    requires Marked(all, p) && IsFirst(p.state)
    ensures p.tokens != [] && Within(all, Inside(p), [StartOf(p.state)])
  {
    LeftSkip(all, p);
    assert Openers(p.states) + [] == Openers(p.states);
    NamedMore(all, |p.tokens|, p.marks, Openers(p.states), StartOf(p.state));
  }

  lemma {:induction false} DirectivesWithin(all: seq<Token>, p: PState, version: bool, tags: seq<TagDirective>)
    requires Within(all, p, [])
    ensures match ProcessDirectives(p, version, tags)
            case Err(_) => true
            case Ok(d) => d.rest.tokens != [] && Within(all, d.rest, [])
    decreases |p.tokens|
  {
    if p.tokens != [] {
      SkipWithin(all, p, []);
      match p.tokens[0]
      case VersionT(_, _) => DirectivesWithin(all, Skip(p), true, tags);
      case TagDirectiveT(d) =>
        match AppendTag(p.tags, d, false) {
          case Err(_) =>
          case Ok(more) => DirectivesWithin(all, Skip(p.(tags := more)), version, tags + [d]);
        }
      case _ =>
    }
  }

  /** A document start whose DOCUMENT-END tokens have been skipped. */
  lemma {:induction false} StartMarks(all: seq<Token>, p: PState, implicit: bool)
    requires Within(all, p, []) && (implicit || SkipDocumentEnds(p) == p)
    ensures Marks(all, ParseDocumentStart(p, implicit))
  {
    DirectivesWithin(all, p, false, []);
    if p.tokens != [] && p.tokens[0].StreamEndT? {
      SkipWithin(all, p, []);
      SameWithin(all, Skip(p), Skip(p).(state := SEnd), []);
    } else if ProcessDirectives(p, false, []).Ok? {
      OpensDocument(all, ProcessDirectives(p, false, []).value.rest);
    }
  }

  lemma {:induction false} DocumentMarks(all: seq<Token>, p: PState, implicit: bool)
    requires Within(all, p, [])
    ensures Marks(all, ParseDocumentStart(p, implicit))
  {
    if implicit {
      StartMarks(all, p, true);
    } else {
      var q := SkipDocumentEnds(p);
      EndsWithin(all, p);
      EndsOnce(p);
      StartMarks(all, q, false);
      assert ParseDocumentStart(p, false) == ParseDocumentStart(q, false);
    }
  }

  lemma {:induction false} EndsOnce(p: PState)
    ensures SkipDocumentEnds(SkipDocumentEnds(p)) == SkipDocumentEnds(p)
    decreases |p.tokens|
  {
    if p.tokens != [] && p.tokens[0].DocumentEndT? {
      EndsOnce(Skip(p));
    }
  }

  lemma {:induction false} EndsWithin(all: seq<Token>, p: PState)
    requires Within(all, p, [])
    ensures Within(all, SkipDocumentEnds(p), [])
    decreases |p.tokens|
  {
    if p.tokens != [] && p.tokens[0].DocumentEndT? {
      SkipWithin(all, p, []);
      EndsWithin(all, Skip(p));
    }
  }

  lemma {:induction false} OpensNode(all: seq<Token>, p: PState, s: State)
    requires Within(all, p, []) && p.tokens != [] && (s.SBlockNode? || s.SDocumentContent?)
    ensures Marked(all, Push(p, SDocumentEnd).(state := s))
  {
    PushWithin(all, p, SDocumentEnd);
    SameWithin(all, Push(p, SDocumentEnd), Push(p, SDocumentEnd).(state := s), []);
  }

  lemma {:induction false} OpensDocument(all: seq<Token>, p: PState)
    requires Within(all, p, []) && p.tokens != []
    ensures Marked(all, Push(p, SDocumentEnd).(state := SBlockNode))
    ensures p.tokens[0].DocumentStartT? ==> Marked(all, Push(Skip(p), SDocumentEnd).(state := SDocumentContent))
  {
    OpensNode(all, p, SBlockNode);
    if p.tokens[0].DocumentStartT? {
      SkipWithin(all, p, []);
      FedSkip(all, p);
      PushWithin(all, Skip(p), SDocumentEnd);
      SameWithin(all, Push(Skip(p), SDocumentEnd), Push(Skip(p), SDocumentEnd).(state := SDocumentContent), []);
    }
  }

  lemma {:induction false} StreamStartMarks(all: seq<Token>, p: PState)
    requires Within(all, p, []) && p.tags == []
    ensures Marks(all, ParseStreamStart(p))
  {
    if p.tokens != [] && p.tokens[0].StreamStartT? {
      SkipWithin(all, p, []);
      FedSkip(all, p);
      SameWithin(all, Skip(p), Skip(p).(state := SImplicitDocumentStart), []);
    }
  }

  lemma {:induction false} DocumentEndMarks(all: seq<Token>, p: PState)
    requires Within(all, p, [])
    ensures Marks(all, ParseDocumentEnd(p))
  {
    if p.tokens != [] && p.tokens[0].DocumentEndT? {
      SkipWithin(all, p, []);
      FedSkip(all, p);
      SameWithin(all, Skip(p), Skip(p).(tags := [], state := SDocumentStart), []);
    } else {
      SameWithin(all, p, p.(tags := [], state := SDocumentStart), []);
    }
  }

  lemma {:induction false} RootMarks(all: seq<Token>, p: PState)
    requires Within(all, p, []) && Fed(all, p)
    ensures Marks(all, ParseDocumentContent(p))
  {
    NodeMarks(all, p, true, false);
    PopMarks(all, p, EmptyScalar);
  }

  /** Entering a collection is its first part, past the start token. */
  lemma BlockEntryStep(p: PState)
    requires p.state == SBlockSequenceFirstEntry && p.tokens != []
    ensures Step(p) == ParseBlockSequenceEntry(Inside(p))
  {
  }

  lemma BlockKeyStep(p: PState)
    requires p.state == SBlockMappingFirstKey && p.tokens != []
    ensures Step(p) == ParseBlockMappingKey(Inside(p))
  {
  }

  lemma FlowEntryStep(p: PState)
    requires p.state == SFlowSequenceFirstEntry && p.tokens != []
    ensures Step(p) == ParseFlowSequenceEntry(Inside(p), true)
  {
  }

  lemma FlowKeyStep(p: PState)
    requires p.state == SFlowMappingFirstKey && p.tokens != []
    ensures Step(p) == ParseFlowMappingKey(Inside(p), true)
  {
  }

  lemma {:induction false} FirstBlockMarks(all: seq<Token>, p: PState)
    requires Marked(all, p) && (p.state.SBlockSequenceFirstEntry? || p.state.SBlockMappingFirstKey?)
    ensures Marks(all, Step(p))
  {
    EnterWithin(all, p);
    if p.state.SBlockSequenceFirstEntry? {
      BlockEntryStep(p);
      BlockSequenceEntryMarks(all, Inside(p));
    } else {
      BlockKeyStep(p);
      BlockMappingKeyMarks(all, Inside(p));
    }
  }

  lemma {:induction false} FirstEntryMarks(all: seq<Token>, p: PState)
    requires Marked(all, p) && p.state.SFlowSequenceFirstEntry?
    ensures Marks(all, Step(p))
  {
    EnterWithin(all, p);
    FlowEntryStep(p);
    FlowSequenceEntryMarks(all, Inside(p), true);
  }

  lemma {:induction false} FirstKeyMarks(all: seq<Token>, p: PState)
    requires Marked(all, p) && p.state.SFlowMappingFirstKey?
    ensures Marks(all, Step(p))
  {
    EnterWithin(all, p);
    FlowKeyStep(p);
    FlowMappingKeyMarks(all, Inside(p), true);
  }

  lemma {:induction false} StepMarks(all: seq<Token>, p: PState)
    requires Marked(all, p) && p.state != SEnd
    ensures Marks(all, Step(p))
  {
    match p.state {
      case SStreamStart => StreamStartMarks(all, p);
      case SImplicitDocumentStart => DocumentMarks(all, p, true);
      case SDocumentStart => DocumentMarks(all, p, false);
      case SDocumentContent => RootMarks(all, p);
      case SDocumentEnd => DocumentEndMarks(all, p);
      case SBlockNode => NodeMarks(all, p, true, false);
      case SBlockSequenceEntry => BlockSequenceEntryMarks(all, p);
      case SIndentlessSequenceEntry => IndentlessSequenceEntryMarks(all, p);
      case SBlockMappingKey => BlockMappingKeyMarks(all, p);
      case SBlockMappingValue => BlockMappingValueMarks(all, p);
      case SFlowSequenceEntry => FlowSequenceEntryMarks(all, p, false);
      case SFlowSequenceEntryMappingKey => PairKeyMarks(all, p);
      case SFlowSequenceEntryMappingValue => PairValueMarks(all, p);
      case SFlowSequenceEntryMappingEnd =>
      case SFlowMappingKey => FlowMappingKeyMarks(all, p, false);
      case SFlowMappingValue => FlowMappingValueMarks(all, p, false);
      case SFlowMappingEmptyValue => FlowMappingValueMarks(all, p, true);
      case SBlockSequenceFirstEntry => FirstBlockMarks(all, p);
      case SBlockMappingFirstKey => FirstBlockMarks(all, p);
      case SFlowSequenceFirstEntry => FirstEntryMarks(all, p);
      case SFlowMappingFirstKey => FirstKeyMarks(all, p);
    }
  }

  lemma {:induction false} RunMarks(all: seq<Token>, p: PState, events: seq<Event>, q: PState)
    requires Marked(all, p) && Reaches(p, events, q)
    ensures Marked(all, q)
    decreases |events|
  {
    if events != [] {
      StepMarks(all, p);
      RunMarks(all, Step(p).next, events[1..], q);
    }
  }
}
