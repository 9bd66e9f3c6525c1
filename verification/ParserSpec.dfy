/**
 The token-to-event parser of yaml.v2 as a step function on values.  A state holds the
 unread tokens, the state stack, the mark stack and the tag directives; one step consumes
 tokens and either emits one event, reports an error, or would panic (popping an empty
 stack, or dereferencing a missing token).
 */
module ParserSpec {
  import opened Wrappers
  import opened G = EventGrammar

  datatype Token =
    | StreamStartT | StreamEndT
    | VersionT(major: int, minor: int)
    | TagDirectiveT(directive: TagDirective)
    | DocumentStartT | DocumentEndT
    | BlockSequenceStartT | BlockMappingStartT | BlockEndT
    | FlowSequenceStartT | FlowSequenceEndT | FlowMappingStartT | FlowMappingEndT
    | BlockEntryT | FlowEntryT | KeyT | ValueT
    | AliasT(name: string) | AnchorT(name: string)
    | TagT(handle: string, suffix: string)
    | ScalarT(value: string, style: ScalarStyle)

  datatype State =
    | SStreamStart | SImplicitDocumentStart | SDocumentStart | SDocumentContent | SDocumentEnd
    | SBlockNode
    | SBlockSequenceFirstEntry | SBlockSequenceEntry | SIndentlessSequenceEntry
    | SBlockMappingFirstKey | SBlockMappingKey | SBlockMappingValue
    | SFlowSequenceFirstEntry | SFlowSequenceEntry
    | SFlowSequenceEntryMappingKey | SFlowSequenceEntryMappingValue | SFlowSequenceEntryMappingEnd
    | SFlowMappingFirstKey | SFlowMappingKey | SFlowMappingValue | SFlowMappingEmptyValue
    | SEnd

  /** A mark names a token by the number of tokens from it to the end of the stream. */
  type Mark = nat

  datatype ParseError =
    | NoToken
    | ExpectedStreamStart | ExpectedDocumentStart
    | DuplicateVersion | IncompatibleVersion | DuplicateTagDirective
    | UndefinedTagHandle | ExpectedNodeContent
    | ExpectedEntry(context: Mark) | ExpectedKey(context: Mark)
    | ExpectedCommaOrBracket(context: Mark) | ExpectedCommaOrBrace(context: Mark)

  datatype PState = PState(state: State, states: seq<State>, marks: seq<Mark>,
                           tags: seq<TagDirective>, tokens: seq<Token>)

  datatype Outcome = Emit(event: Event, next: PState) | Fail(error: ParseError) | Panic

  const EmptyScalar := Scalar(None, "", "", true, false, Plain)
  const DefaultTags: seq<TagDirective> :=
    [TagDirective("!", "!"), TagDirective("!!", "tag:yaml.org,2002:")]

  function Initial(tokens: seq<Token>): PState { PState(SStreamStart, [], [], [], tokens) }

  function Skip(p: PState): PState
    requires p.tokens != []
  {
    p.(tokens := p.tokens[1..])
  }

  function Push(p: PState, s: State): PState { p.(states := p.states + [s]) }

  function PopTo(p: PState): PState
    requires p.states != []
  {
    p.(state := p.states[|p.states| - 1], states := p.states[..|p.states| - 1])
  }

  /** Emit `e` as a whole node: control returns to the state on top of the stack. */
  function EmitNode(p: PState, e: Event): Outcome {
    if p.states == [] then Panic else Emit(e, PopTo(p))
  }

  /** Emit the end of a collection that pushed a mark, consuming its end token. */
  function EmitClose(p: PState, e: Event): Outcome
    requires p.tokens != []
  {
    if p.states == [] || p.marks == [] then Panic
    else Emit(e, Skip(PopTo(p)).(marks := p.marks[..|p.marks| - 1]))
  }

  function EmitEmpty(p: PState, s: State): Outcome { Emit(EmptyScalar, p.(state := s)) }

  /** The opening step of a collection: remember its mark and drop its start token. */
  function Enter(p: PState): Option<PState> {
    if p.tokens == [] then None else Some(Skip(p.(marks := p.marks + [|p.tokens|])))
  }

  function LastMark(p: PState): Mark
    requires p.marks != []
  {
    p.marks[|p.marks| - 1]
  }

  // ---------- directives ----------

  predicate HandleDefined(tags: seq<TagDirective>, handle: string) {
    exists i :: 0 <= i < |tags| && tags[i].handle == handle
  }

  function AppendTag(tags: seq<TagDirective>, d: TagDirective, allowDuplicates: bool)
    : Result<seq<TagDirective>, ParseError>
  {
    if HandleDefined(tags, d.handle) then if allowDuplicates then Ok(tags) else Err(DuplicateTagDirective)
    else Ok(tags + [d])
  }

  function WithDefault(tags: seq<TagDirective>, d: TagDirective): seq<TagDirective> {
    if HandleDefined(tags, d.handle) then tags else tags + [d]
  }

  function WithDefaults(tags: seq<TagDirective>): seq<TagDirective> {
    WithDefault(WithDefault(tags, DefaultTags[0]), DefaultTags[1])
  }

  datatype Directives = Directives(rest: PState, version: bool, tags: seq<TagDirective>)

  function ProcessDirectives(p: PState, version: bool, tags: seq<TagDirective>): Result<Directives, ParseError>
    decreases |p.tokens|
  {
    if p.tokens == [] then Err(NoToken)
    else match p.tokens[0]
      case VersionT(major, minor) =>
        if version then Err(DuplicateVersion)
        else if major != 1 || minor != 1 then Err(IncompatibleVersion)
        else ProcessDirectives(Skip(p), true, tags)
      case TagDirectiveT(d) =>
        (match AppendTag(p.tags, d, false)
         case Err(e) => Err(e)
         case Ok(all) => ProcessDirectives(Skip(p.(tags := all)), version, tags + [d]))
      case _ => Ok(Directives(p.(tags := WithDefaults(p.tags)), version, tags))
  }

  // ---------- stream and documents ----------

  function ParseStreamStart(p: PState): Outcome {
    if p.tokens == [] then Fail(NoToken)
    else if !p.tokens[0].StreamStartT? then Fail(ExpectedStreamStart)
    else Emit(StreamStart, Skip(p).(state := SImplicitDocumentStart))
  }

  function SkipDocumentEnds(p: PState): PState
    decreases |p.tokens|
  {
    if p.tokens != [] && p.tokens[0].DocumentEndT? then SkipDocumentEnds(Skip(p)) else p
  }

  predicate StartsExplicit(t: Token) { t.VersionT? || t.TagDirectiveT? || t.DocumentStartT? }

  function ParseDocumentStart(p0: PState, implicit: bool): Outcome {
    var p := if implicit then p0 else SkipDocumentEnds(p0);
    if p.tokens == [] then Fail(NoToken)
    else if implicit && !StartsExplicit(p.tokens[0]) && !p.tokens[0].StreamEndT? then
      match ProcessDirectives(p, false, [])
      case Err(e) => Fail(e)
      case Ok(d) =>
        Emit(DocumentStart(false, [], false), Push(d.rest, SDocumentEnd).(state := SBlockNode))
    else if !p.tokens[0].StreamEndT? then
      match ProcessDirectives(p, false, [])
      case Err(e) => Fail(e)
      case Ok(d) =>
        if d.rest.tokens == [] then Fail(NoToken)
        else if !d.rest.tokens[0].DocumentStartT? then Fail(ExpectedDocumentStart)
        else
          Emit(DocumentStart(d.version, d.tags, false),
               Push(Skip(d.rest), SDocumentEnd).(state := SDocumentContent))
    else Emit(StreamEnd, Skip(p).(state := SEnd))
  }

  function ParseDocumentContent(p: PState): Outcome {
    if p.tokens == [] then Fail(NoToken)
    else if StartsExplicit(p.tokens[0]) || p.tokens[0].DocumentEndT? || p.tokens[0].StreamEndT? then
      EmitNode(p, EmptyScalar)
    else ParseNode(p, true, false)
  }

  function ParseDocumentEnd(p: PState): Outcome {
    if p.tokens == [] then Fail(NoToken)
    else
      var explicit := p.tokens[0].DocumentEndT?;
      var q := if explicit then Skip(p) else p;
      Emit(DocumentEnd(!explicit), q.(tags := [], state := SDocumentStart))
  }

  // ---------- nodes ----------

  datatype Tag = Tag(handle: string, suffix: string)
  datatype Properties = Properties(rest: PState, anchor: Option<string>, tag: Option<Tag>)

  /** The optional anchor and tag in front of a node, in either order. */
  function ParseProperties(p: PState): Option<Properties>
    requires p.tokens != []
  {
    match p.tokens[0]
    case AnchorT(a) =>
      var q := Skip(p);
      if q.tokens == [] then None
      else if q.tokens[0].TagT? then
        var r := Skip(q);
        if r.tokens == [] then None
        else Some(Properties(r, Some(a), Some(Tag(q.tokens[0].handle, q.tokens[0].suffix))))
      else Some(Properties(q, Some(a), None))
    case TagT(handle, suffix) =>
      var q := Skip(p);
      if q.tokens == [] then None
      else if q.tokens[0].AnchorT? then
        var r := Skip(q);
        if r.tokens == [] then None
        else Some(Properties(r, Some(q.tokens[0].name), Some(Tag(handle, suffix))))
      else Some(Properties(q, None, Some(Tag(handle, suffix))))
    case _ => Some(Properties(p, None, None))
  }

  function FindPrefix(tags: seq<TagDirective>, handle: string): Option<string> {
    if tags == [] then None
    else if tags[0].handle == handle then Some(tags[0].prefix)
    else FindPrefix(tags[1..], handle)
  }

  /** The full tag of a node; `None` when its handle stands for nothing. */
  function ResolveTag(tags: seq<TagDirective>, tag: Option<Tag>): Option<string> {
    match tag
    case None => Some("")
    case Some(t) =>
      if t.handle == "" then Some(t.suffix)
      else match FindPrefix(tags, t.handle)
        case None => None
        case Some(prefix) => if prefix + t.suffix == "" then None else Some(prefix + t.suffix)
  }

  function ScalarEvent(anchor: Option<string>, tag: string, value: string, style: ScalarStyle): Event {
    var plain := (tag == "" && style == Plain) || tag == "!";
    Scalar(anchor, tag, value, plain, !plain && tag == "", style)
  }

  function ParseNode(p: PState, block: bool, indentless: bool): Outcome {
    if p.tokens == [] then Fail(NoToken)
    else if p.tokens[0].AliasT? then
      if p.states == [] then Panic else Emit(Alias(p.tokens[0].name), Skip(PopTo(p)))
    else match ParseProperties(p)
      case None => Fail(NoToken)
      case Some(props) =>
        match ResolveTag(props.rest.tags, props.tag)
        case None => Fail(UndefinedTagHandle)
        case Some(tag) => ParseContent(props.rest, block, indentless, props.anchor, tag)
  }

  function ParseContent(p: PState, block: bool, indentless: bool, anchor: Option<string>, tag: string): Outcome
    requires p.tokens != []
  {
    var implicit := tag == "";
    var t := p.tokens[0];
    if indentless && t.BlockEntryT? then
      Emit(SequenceStart(anchor, tag, implicit, Block), p.(state := SIndentlessSequenceEntry))
    else if t.ScalarT? then
      if p.states == [] then Panic
      else Emit(ScalarEvent(anchor, tag, t.value, t.style), Skip(PopTo(p)))
    else if t.FlowSequenceStartT? then
      Emit(SequenceStart(anchor, tag, implicit, Flow), p.(state := SFlowSequenceFirstEntry))
    else if t.FlowMappingStartT? then
      Emit(MappingStart(anchor, tag, implicit, Flow), p.(state := SFlowMappingFirstKey))
    else if block && t.BlockSequenceStartT? then
      Emit(SequenceStart(anchor, tag, implicit, Block), p.(state := SBlockSequenceFirstEntry))
    else if block && t.BlockMappingStartT? then
      Emit(MappingStart(anchor, tag, implicit, Block), p.(state := SBlockMappingFirstKey))
    else if (anchor.Some? && anchor.value != "") || tag != "" then
      EmitNode(p, Scalar(anchor, tag, "", implicit, false, Plain))
    else Fail(ExpectedNodeContent)
  }

  // ---------- block collections ----------

  function ParseBlockSequenceEntry(p: PState): Outcome {
    if p.tokens == [] then Fail(NoToken)
    else if p.tokens[0].BlockEntryT? then
      var q := Skip(p);
      if q.tokens == [] then Fail(NoToken)
      else if !q.tokens[0].BlockEntryT? && !q.tokens[0].BlockEndT? then
        ParseNode(Push(q, SBlockSequenceEntry), true, false)
      else EmitEmpty(q, SBlockSequenceEntry)
    else if p.tokens[0].BlockEndT? then EmitClose(p, SequenceEnd)
    else if p.marks == [] then Panic
    else Fail(ExpectedEntry(LastMark(p)))
  }

  function ParseIndentlessSequenceEntry(p: PState): Outcome {
    if p.tokens == [] then Fail(NoToken)
    else if p.tokens[0].BlockEntryT? then
      var q := Skip(p);
      if q.tokens == [] then Fail(NoToken)
      else if !q.tokens[0].BlockEntryT? && !q.tokens[0].KeyT? && !q.tokens[0].ValueT? && !q.tokens[0].BlockEndT? then
        ParseNode(Push(q, SIndentlessSequenceEntry), true, false)
      else EmitEmpty(q, SIndentlessSequenceEntry)
    else EmitNode(p, SequenceEnd)
  }

  predicate EndsBlockPart(t: Token) { t.KeyT? || t.ValueT? || t.BlockEndT? }

  function ParseBlockMappingKey(p: PState): Outcome {
    if p.tokens == [] then Fail(NoToken)
    else if p.tokens[0].KeyT? then
      var q := Skip(p);
      if q.tokens == [] then Fail(NoToken)
      else if !EndsBlockPart(q.tokens[0]) then ParseNode(Push(q, SBlockMappingValue), true, true)
      else EmitEmpty(q, SBlockMappingValue)
    else if p.tokens[0].BlockEndT? then EmitClose(p, MappingEnd)
    else if p.marks == [] then Panic
    else Fail(ExpectedKey(LastMark(p)))
  }

  function ParseBlockMappingValue(p: PState): Outcome {
    if p.tokens == [] then Fail(NoToken)
    else if p.tokens[0].ValueT? then
      var q := Skip(p);
      if q.tokens == [] then Fail(NoToken)
      else if !EndsBlockPart(q.tokens[0]) then ParseNode(Push(q, SBlockMappingKey), true, true)
      else EmitEmpty(q, SBlockMappingKey)
    else EmitEmpty(p, SBlockMappingKey)
  }

  // ---------- flow collections ----------

  function ParseFlowSequenceEntry(p: PState, first: bool): Outcome {
    if p.tokens == [] then Fail(NoToken)
    else if p.tokens[0].FlowSequenceEndT? then EmitClose(p, SequenceEnd)
    else if first then ParseFlowSequenceItem(p)
    else if p.tokens[0].FlowEntryT? then
      if Skip(p).tokens == [] then Fail(NoToken) else ParseFlowSequenceItem(Skip(p))
    else if p.marks == [] then Panic
    else Fail(ExpectedCommaOrBracket(LastMark(p)))
  }

  function ParseFlowSequenceItem(p: PState): Outcome
    requires p.tokens != []
  {
    if p.tokens[0].KeyT? then
      Emit(MappingStart(None, "", true, Flow), Skip(p).(state := SFlowSequenceEntryMappingKey))
    else if !p.tokens[0].FlowSequenceEndT? then ParseNode(Push(p, SFlowSequenceEntry), false, false)
    else EmitClose(p, SequenceEnd)
  }

  function ParseFlowSequenceEntryMappingKey(p: PState): Outcome {
    if p.tokens == [] then Fail(NoToken)
    else if !p.tokens[0].ValueT? && !p.tokens[0].FlowEntryT? && !p.tokens[0].FlowSequenceEndT? then
      ParseNode(Push(p, SFlowSequenceEntryMappingValue), false, false)
    else EmitEmpty(Skip(p), SFlowSequenceEntryMappingValue)
  }

  function ParseFlowSequenceEntryMappingValue(p: PState): Outcome {
    if p.tokens == [] then Fail(NoToken)
    else if p.tokens[0].ValueT? then
      var q := Skip(p);
      if q.tokens == [] then Fail(NoToken)
      else if !q.tokens[0].FlowEntryT? && !q.tokens[0].FlowSequenceEndT? then
        ParseNode(Push(q, SFlowSequenceEntryMappingEnd), false, false)
      else EmitEmpty(q, SFlowSequenceEntryMappingEnd)
    else EmitEmpty(p, SFlowSequenceEntryMappingEnd)
  }

  function ParseFlowSequenceEntryMappingEnd(p: PState): Outcome {
    if p.tokens == [] then Fail(NoToken) else Emit(MappingEnd, p.(state := SFlowSequenceEntry))
  }

  function ParseFlowMappingKey(p: PState, first: bool): Outcome {
    if p.tokens == [] then Fail(NoToken)
    else if p.tokens[0].FlowMappingEndT? then EmitClose(p, MappingEnd)
    else if first then ParseFlowMappingItem(p)
    else if p.tokens[0].FlowEntryT? then
      if Skip(p).tokens == [] then Fail(NoToken) else ParseFlowMappingItem(Skip(p))
    else if p.marks == [] then Panic
    else Fail(ExpectedCommaOrBrace(LastMark(p)))
  }

  function ParseFlowMappingItem(p: PState): Outcome
    requires p.tokens != []
  {
    if p.tokens[0].KeyT? then
      var q := Skip(p);
      if q.tokens == [] then Fail(NoToken)
      else if !q.tokens[0].ValueT? && !q.tokens[0].FlowEntryT? && !q.tokens[0].FlowMappingEndT? then
        ParseNode(Push(q, SFlowMappingValue), false, false)
      else EmitEmpty(q, SFlowMappingValue)
    else if !p.tokens[0].FlowMappingEndT? then ParseNode(Push(p, SFlowMappingEmptyValue), false, false)
    else EmitClose(p, MappingEnd)
  }

  function ParseFlowMappingValue(p: PState, empty: bool): Outcome {
    if p.tokens == [] then Fail(NoToken)
    else if empty then EmitEmpty(p, SFlowMappingKey)
    else if p.tokens[0].ValueT? then
      var q := Skip(p);
      if q.tokens == [] then Fail(NoToken)
      else if !q.tokens[0].FlowEntryT? && !q.tokens[0].FlowMappingEndT? then
        ParseNode(Push(q, SFlowMappingKey), false, false)
      else EmitEmpty(q, SFlowMappingKey)
    else EmitEmpty(p, SFlowMappingKey)
  }

  // ---------- the dispatcher ----------

  function Step(p: PState): Outcome
    requires p.state != SEnd
  {
    match p.state
    case SStreamStart => ParseStreamStart(p)
    case SImplicitDocumentStart => ParseDocumentStart(p, true)
    case SDocumentStart => ParseDocumentStart(p, false)
    case SDocumentContent => ParseDocumentContent(p)
    case SDocumentEnd => ParseDocumentEnd(p)
    case SBlockNode => ParseNode(p, true, false)
    case SBlockSequenceFirstEntry =>
      (match Enter(p) case None => Panic case Some(q) => ParseBlockSequenceEntry(q))
    case SBlockSequenceEntry => ParseBlockSequenceEntry(p)
    case SIndentlessSequenceEntry => ParseIndentlessSequenceEntry(p)
    case SBlockMappingFirstKey =>
      (match Enter(p) case None => Panic case Some(q) => ParseBlockMappingKey(q))
    case SBlockMappingKey => ParseBlockMappingKey(p)
    case SBlockMappingValue => ParseBlockMappingValue(p)
    case SFlowSequenceFirstEntry =>
      (match Enter(p) case None => Panic case Some(q) => ParseFlowSequenceEntry(q, true))
    case SFlowSequenceEntry => ParseFlowSequenceEntry(p, false)
    case SFlowSequenceEntryMappingKey => ParseFlowSequenceEntryMappingKey(p)
    case SFlowSequenceEntryMappingValue => ParseFlowSequenceEntryMappingValue(p)
    case SFlowSequenceEntryMappingEnd => ParseFlowSequenceEntryMappingEnd(p)
    case SFlowMappingFirstKey =>
      (match Enter(p) case None => Panic case Some(q) => ParseFlowMappingKey(q, true))
    case SFlowMappingKey => ParseFlowMappingKey(p, false)
    case SFlowMappingValue => ParseFlowMappingValue(p, false)
    case SFlowMappingEmptyValue => ParseFlowMappingValue(p, true)
  }

  /** `events` are the next events the parser returns, leading from `p` to `q`. */
  ghost predicate Reaches(p: PState, events: seq<Event>, q: PState)
    decreases |events|
  {
    if events == [] then p == q
    else p.state != SEnd && Step(p).Emit? && Step(p).event == events[0] && Reaches(Step(p).next, events[1..], q)
  }
}
