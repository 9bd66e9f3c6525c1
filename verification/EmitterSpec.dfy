/**
 The state machine of the yaml.v2 emitter on values: its states, its return-state stack, its
 indentation stack, its flow level, and the queue of events it looks ahead in.  What the
 text layer decides (whether an event's content is acceptable, whether a key is simple,
 whether a sequence is indentless) is an arbitrary `Choices`, which over a run may be
 another one for every event.
 */
module EmitterSpec {
  import opened Wrappers
  import opened G = EventGrammar

  datatype State =
    | EStreamStart | EFirstDocumentStart | EDocumentStart | EDocumentContent | EDocumentEnd
    | EFlowSequenceFirstItem | EFlowSequenceItem
    | EFlowMappingFirstKey | EFlowMappingKey | EFlowMappingSimpleValue | EFlowMappingValue
    | EBlockSequenceFirstItem | EBlockSequenceItem
    | EBlockMappingFirstKey | EBlockMappingKey | EBlockMappingSimpleValue | EBlockMappingValue
    | EEnd

  datatype Choices = Choices(contentOk: Event -> bool, simpleKey: seq<Event> -> bool, indentless: seq<Event> -> bool)

  datatype EState = EState(state: State, states: seq<State>, flowLevel: int, indent: int, indents: seq<int>)

  datatype Settings = Settings(canonical: bool, bestIndent: int, choices: Choices)

  /** What is settled for a whole run; `choices(n)` is what the text layer decides at the n-th event. */
  datatype Plan = Plan(canonical: bool, askedIndent: int, choices: nat -> Choices)

  /** The indentation step: the one asked for, if it is one digit and no less than 2. */
  function BestIndent(c: Plan): int { if 2 <= c.askedIndent <= 9 then c.askedIndent else 2 }

  function At(c: Plan, n: nat): Settings { Settings(c.canonical, BestIndent(c), c.choices(n)) }

  datatype Outcome = Accepted(next: EState) | Rejected | Crash

  function Initial(): EState { EState(EStreamStart, [], 0, -1, []) }

  function PopState(s: EState): Outcome {
    if s.states == [] then Crash
    else Accepted(s.(state := s.states[|s.states| - 1], states := s.states[..|s.states| - 1]))
  }

  function IncreaseIndent(s: EState, best: int, flow: bool, indentless: bool): EState {
    s.(indents := s.indents + [s.indent],
       indent := if s.indent < 0 then if flow then best else 0
                 else if indentless then s.indent else s.indent + best)
  }

  function PopIndent(s: EState): Outcome {
    if s.indents == [] then Crash
    else Accepted(s.(indent := s.indents[|s.indents| - 1], indents := s.indents[..|s.indents| - 1]))
  }

  /** Leave a collection: restore the indentation, then the return state. */
  function Leave(s: EState): Outcome {
    match PopIndent(s) case Accepted(t) => PopState(t) case o => o
  }

  /** The next two events are an empty collection. */
  predicate StartsEmpty(q: seq<Event>) {
    && |q| >= 2
    && ((q[0].SequenceStart? && q[1].SequenceEnd?) || (q[0].MappingStart? && q[1].MappingEnd?))
  }

  /** The state in which the text of a scalar is written. */
  function AtScalar(c: Settings, s: EState): EState { IncreaseIndent(s, c.bestIndent, true, false) }

  /** The node before which these return states were pushed is a key or a value. */
  predicate MappingContext(states: seq<State>) {
    && states != []
    && var r := states[|states| - 1];
       || r.EFlowMappingSimpleValue? || r.EFlowMappingValue? || r.EFlowMappingKey?
       || r.EBlockMappingSimpleValue? || r.EBlockMappingValue? || r.EBlockMappingKey?
  }

  /** Emit the node at the head of `q`; return states have been pushed by the caller. */
  function EmitNode(c: Settings, s: EState, q: seq<Event>): Outcome
    requires q != []
  {
    match q[0]
    case Alias(_) => PopState(s)
    case Scalar(_, _, _, _, _, _) => Leave(AtScalar(c, s))
    case SequenceStart(_, _, _, layout) =>
      Accepted(s.(state := if s.flowLevel > 0 || c.canonical || layout == Flow || StartsEmpty(q)
                           then EFlowSequenceFirstItem else EBlockSequenceFirstItem))
    case MappingStart(_, _, _, layout) =>
      Accepted(s.(state := if s.flowLevel > 0 || c.canonical || layout == Flow || StartsEmpty(q)
                           then EFlowMappingFirstKey else EBlockMappingFirstKey))
    case _ => Rejected
  }

  function PushEmit(c: Settings, s: EState, q: seq<Event>, return_: State): Outcome
    requires q != []
  {
    EmitNode(c, s.(states := s.states + [return_]), q)
  }

  function EnterFlow(c: Settings, s: EState, first: bool): EState {
    if first then IncreaseIndent(s, c.bestIndent, true, false).(flowLevel := s.flowLevel + 1) else s
  }

  function EnterBlock(c: Settings, s: EState, first: bool, indentless: bool): EState {
    if first then IncreaseIndent(s, c.bestIndent, false, indentless) else s
  }

  function FlowSequenceItem(c: Settings, s0: EState, q: seq<Event>, first: bool): Outcome
    requires q != []
  {
    var s := EnterFlow(c, s0, first);
    if q[0].SequenceEnd? then Leave(s.(flowLevel := s.flowLevel - 1)) else PushEmit(c, s, q, EFlowSequenceItem)
  }

  function FlowMappingKey(c: Settings, s0: EState, q: seq<Event>, first: bool): Outcome
    requires q != []
  {
    var s := EnterFlow(c, s0, first);
    if q[0].MappingEnd? then Leave(s.(flowLevel := s.flowLevel - 1))
    else
      var simple := !c.canonical && c.choices.simpleKey(q);
      PushEmit(c, s, q, if simple then EFlowMappingSimpleValue else EFlowMappingValue)
  }

  function BlockSequenceItem(c: Settings, s0: EState, q: seq<Event>, first: bool): Outcome
    requires q != []
  {
    var s := EnterBlock(c, s0, first, MappingContext(s0.states) && c.choices.indentless(q));
    if q[0].SequenceEnd? then Leave(s) else PushEmit(c, s, q, EBlockSequenceItem)
  }

  function BlockMappingKey(c: Settings, s0: EState, q: seq<Event>, first: bool): Outcome
    requires q != []
  {
    var s := EnterBlock(c, s0, first, false);
    if q[0].MappingEnd? then Leave(s)
    else PushEmit(c, s, q, if c.choices.simpleKey(q) then EBlockMappingSimpleValue else EBlockMappingValue)
  }

  function StateMachine(c: Settings, s: EState, q: seq<Event>): Outcome
    requires q != []
  {
    match s.state
    case EStreamStart =>
      if q[0].StreamStart? then Accepted(s.(state := EFirstDocumentStart, indent := -1)) else Rejected
    case EFirstDocumentStart => DocumentStartOrEnd(s, q[0])
    case EDocumentStart => DocumentStartOrEnd(s, q[0])
    case EDocumentContent => PushEmit(c, s, q, EDocumentEnd)
    case EDocumentEnd => if q[0].DocumentEnd? then Accepted(s.(state := EDocumentStart)) else Rejected
    case EFlowSequenceFirstItem => FlowSequenceItem(c, s, q, true)
    case EFlowSequenceItem => FlowSequenceItem(c, s, q, false)
    case EFlowMappingFirstKey => FlowMappingKey(c, s, q, true)
    case EFlowMappingKey => FlowMappingKey(c, s, q, false)
    case EFlowMappingSimpleValue => PushEmit(c, s, q, EFlowMappingKey)
    case EFlowMappingValue => PushEmit(c, s, q, EFlowMappingKey)
    case EBlockSequenceFirstItem => BlockSequenceItem(c, s, q, true)
    case EBlockSequenceItem => BlockSequenceItem(c, s, q, false)
    case EBlockMappingFirstKey => BlockMappingKey(c, s, q, true)
    case EBlockMappingKey => BlockMappingKey(c, s, q, false)
    case EBlockMappingSimpleValue => PushEmit(c, s, q, EBlockMappingKey)
    case EBlockMappingValue => PushEmit(c, s, q, EBlockMappingKey)
    case EEnd => Rejected
  }

  function DocumentStartOrEnd(s: EState, e: Event): Outcome {
    if e.DocumentStart? then Accepted(s.(state := EDocumentContent))
    else if e.StreamEnd? then Accepted(s.(state := EEnd)) else Rejected
  }

  /** Analyse the event at the head of the queue, then run the state machine on it. */
  function Process(c: Settings, s: EState, q: seq<Event>): Outcome
    requires q != []
  {
    if c.choices.contentOk(q[0]) then StateMachine(c, s, q) else Rejected
  }

  // ---------- lookahead ----------

  function Delta(e: Event): int {
    if e.StreamStart? || e.DocumentStart? || e.SequenceStart? || e.MappingStart? then 1
    else if e.StreamEnd? || e.DocumentEnd? || e.SequenceEnd? || e.MappingEnd? then -1 else 0
  }

  function Level(q: seq<Event>): int {
    if q == [] then 0 else Level(q[..|q| - 1]) + Delta(q[|q| - 1])
  }

  /** How many events must follow the head before it can be emitted. */
  function Accumulate(e: Event): nat {
    if e.DocumentStart? then 1 else if e.SequenceStart? then 2 else if e.MappingStart? then 3 else 0
  }

  predicate NeedMore(q: seq<Event>) {
    || q == []
    || (Accumulate(q[0]) > 0 && |q| <= Accumulate(q[0]) && forall n :: 1 <= n <= |q| ==> Level(q[..n]) != 0)
  }

  /**
   Emit from the queue until more events are needed: the state, what stays queued, and how many
   were emitted in all.
   */
  datatype Drained = Drained(state: EState, queue: seq<Event>, emitted: nat) | DrainRejected | DrainCrash

  function Drain(c: Plan, s: EState, q: seq<Event>, emitted: nat): Drained
    decreases |q|
  {
    if NeedMore(q) then Drained(s, q, emitted)
    else match Process(At(c, emitted), s, q)
      case Accepted(t) => Drain(c, t, q[1..], emitted + 1)
      case Rejected => DrainRejected
      case Crash => DrainCrash
  }

  /** Emit `events` one call after another, from state `s` with `q` queued and `emitted` events behind. */
  function EmitAll(c: Plan, s: EState, q: seq<Event>, emitted: nat, events: seq<Event>): Drained
    decreases |events|
  {
    if events == [] then Drained(s, q, emitted)
    else match Drain(c, s, q + [events[0]], emitted)
      case Drained(t, r, n) => EmitAll(c, t, r, n, events[1..])
      case o => o
  }
}
