/**
 The emitter accepts the event grammar and nothing else.  Up to the first rejection no
 stack is popped empty, the flow level and the indentation stack count the entered open
 collections, and a complete word leaves the queue empty in the end state.
 */
module EmitterSound {
  import opened Wrappers
  import opened G = EventGrammar
  import opened EmitterSpec

  function Pushed(s: State): seq<Slot> {
    match s
    case EFlowSequenceItem => [Item]
    case EBlockSequenceItem => [Item]
    case EFlowMappingSimpleValue => [Key]
    case EFlowMappingValue => [Key]
    case EBlockMappingSimpleValue => [Key]
    case EBlockMappingValue => [Key]
    case EFlowMappingKey => [Value]
    case EBlockMappingKey => [Value]
    case _ => []
  }

  function Current(s: State): seq<Slot> {
    match s
    case EFlowSequenceFirstItem => [Item]
    case EFlowSequenceItem => [Item]
    case EBlockSequenceFirstItem => [Item]
    case EBlockSequenceItem => [Item]
    case EFlowMappingFirstKey => [Key]
    case EFlowMappingKey => [Key]
    case EBlockMappingFirstKey => [Key]
    case EBlockMappingKey => [Key]
    case EFlowMappingSimpleValue => [Value]
    case EFlowMappingValue => [Value]
    case EBlockMappingSimpleValue => [Value]
    case EBlockMappingValue => [Value]
    case _ => []
  }

  predicate IsFirst(s: State) {
    s.EFlowSequenceFirstItem? || s.EFlowMappingFirstKey? || s.EBlockSequenceFirstItem? || s.EBlockMappingFirstKey?
  }

  predicate IsReturnState(s: State) { Pushed(s) != [] }

  /** 1 for a state inside an entered flow collection. */
  function FlowOf(s: State): nat {
    if s.EFlowSequenceItem? || s.EFlowMappingKey? || s.EFlowMappingSimpleValue? || s.EFlowMappingValue? then 1 else 0
  }

  predicate OutsideDocument(s: State) {
    s.EStreamStart? || s.EFirstDocumentStart? || s.EDocumentStart? || s.EDocumentContent? || s.EDocumentEnd? || s.EEnd?
  }

  function Stacked(states: seq<State>): (slots: seq<Slot>)
    ensures |slots| <= |states|
  {
    if states == [] then [] else Stacked(states[..|states| - 1]) + Pushed(states[|states| - 1])
  }

  function FlowsOf(states: seq<State>): nat {
    if states == [] then 0 else FlowsOf(states[..|states| - 1]) + FlowOf(states[|states| - 1])
  }

  predicate DocumentStack(states: seq<State>) {
    && states != [] && states[0] == EDocumentEnd
    && forall i :: 1 <= i < |states| ==> IsReturnState(states[i])
  }

  /** Collections that have been entered: every stacked one, and the current one unless it is about to be. */
  function Entered(s: EState): nat {
    |Stacked(s.states)| + if IsFirst(s.state) then 0 else |Current(s.state)|
  }

  ghost predicate Inv(s: EState) {
    && |s.indents| == Entered(s)
    && s.flowLevel == FlowsOf(s.states) + FlowOf(s.state)
    && (s.indents + [s.indent])[0] == -1
    && (if OutsideDocument(s.state) then s.states == [] else DocumentStack(s.states) && Current(s.state) != [])
  }

  function Position(s: EState): Config {
    if !OutsideDocument(s.state) then Expect(Stacked(s.states) + Current(s.state))
    else match s.state
      case EStreamStart => Start
      case EDocumentContent => Expect([])
      case EDocumentEnd => RootDone
      case EEnd => End
      case _ => Between
  }

  /** What is proved of one outcome: it is decided by the grammar alone, and keeps the invariant. */
  ghost predicate Agrees(p: Config, e: Event, o: Outcome) {
    match o
    case Crash => false
    case Rejected => Next(p, e).None?
    case Accepted(t) => Inv(t) && Next(p, e) == Some(Position(t))
  }

  lemma {:induction false} ReturnAttaches(base: seq<Slot>, s: State)
    requires IsReturnState(s)
    ensures AfterNode(base + Pushed(s)) == Expect(base + Current(s))
    ensures !OutsideDocument(s) && !IsFirst(s) && |Pushed(s)| == |Current(s)| == 1
  {
    assert (base + Pushed(s))[..|base|] == base;
  }

  /** A node is due and the entered collections are exactly the stacked ones. */
  ghost predicate NodeDue(s: EState) {
    && DocumentStack(s.states)
    && |s.indents| == |Stacked(s.states)|
    && s.flowLevel == FlowsOf(s.states)
    && (s.indents + [s.indent])[0] == -1
  }

  lemma {:induction false} PopAttaches(s: EState)
    requires NodeDue(s)
    ensures match PopState(s) case Accepted(t) => Inv(t) && Position(t) == AfterNode(Stacked(s.states)) case _ => false
  {
    var rest, top := s.states[..|s.states| - 1], s.states[|s.states| - 1];
    if rest == [] {
      assert Stacked(rest) == [] && Stacked(s.states) == [] && FlowsOf(rest) == 0;
    } else {
      assert DocumentStack(rest);
      ReturnAttaches(Stacked(rest), top);
    }
  }

  lemma {:induction false} IndentRestored(s: EState, best: int, flow: bool, indentless: bool)
    ensures PopIndent(IncreaseIndent(s, best, flow, indentless)) == Accepted(s)
  {
    assert (s.indents + [s.indent])[..|s.indents|] == s.indents;
  }

  lemma {:induction false} OpenAgrees(s: EState, e: Event, first: State)
    requires NodeDue(s) && IsFirst(first)
    requires (e.SequenceStart? && Current(first) == [Item]) || (e.MappingStart? && Current(first) == [Key])
    ensures Agrees(Expect(Stacked(s.states)), e, Accepted(s.(state := first)))
  {
  }

  lemma {:induction false} LeafAgrees(s: EState, e: Event)
    requires NodeDue(s) && IsLeafEvent(e)
    ensures Agrees(Expect(Stacked(s.states)), e, PopState(s))
  {
    PopAttaches(s);
  }

  lemma {:induction false} NodeAgrees(c: Settings, s: EState, q: seq<Event>)
    requires q != [] && NodeDue(s) && !q[0].SequenceEnd? && !q[0].MappingEnd?
    ensures Agrees(Expect(Stacked(s.states)), q[0], EmitNode(c, s, q))
  {
    match q[0]
    case Alias(_) =>
      LeafAgrees(s, q[0]);
    case Scalar(_, _, _, _, _, _) =>
      IndentRestored(s, c.bestIndent, true, false);
      LeafAgrees(s, q[0]);
    case SequenceStart(_, _, _, _) => CollectionAgrees(c, s, q);
    case MappingStart(_, _, _, _) => CollectionAgrees(c, s, q);
    case _ =>
  }

  lemma {:induction false} CollectionAgrees(c: Settings, s: EState, q: seq<Event>)
    requires q != [] && NodeDue(s) && IsOpenEvent(q[0])
    ensures Agrees(Expect(Stacked(s.states)), q[0], EmitNode(c, s, q))
  {
    if q[0].SequenceStart? {
      OpenAgrees(s, q[0], EFlowSequenceFirstItem);
      OpenAgrees(s, q[0], EBlockSequenceFirstItem);
    } else {
      OpenAgrees(s, q[0], EFlowMappingFirstKey);
      OpenAgrees(s, q[0], EBlockMappingFirstKey);
    }
  }

  /** Inside an entered collection whose return state is `s`. */
  ghost predicate InCollection(s: EState, r: State) {
    && DocumentStack(s.states) && IsReturnState(r)
    && |s.indents| == |Stacked(s.states)| + 1
    && s.flowLevel == FlowsOf(s.states) + FlowOf(r)
    && s.indents[0] == -1
  }

  lemma {:induction false} MemberAgrees(c: Settings, s: EState, q: seq<Event>, r: State)
    requires q != [] && InCollection(s, r)
    requires Pushed(r) == [Item] ==> !q[0].SequenceEnd?
    requires Pushed(r) == [Key] ==> !q[0].MappingEnd?
    ensures Agrees(Expect(Stacked(s.states) + Pushed(r)), q[0], PushEmit(c, s, q, r))
  {
    var t := s.(states := s.states + [r]);
    assert t.states[..|s.states|] == s.states;
    ReturnAttaches(Stacked(s.states), r);
    assert (s.indents + [s.indent])[0] == s.indents[0];
    if !q[0].SequenceEnd? && !q[0].MappingEnd? {
      NodeAgrees(c, t, q);
    }
  }

  lemma {:induction false} LeaveAgrees(s: EState, slot: Slot)
    requires DocumentStack(s.states) && slot != Value
    requires |s.indents| == |Stacked(s.states)| + 1 && s.flowLevel == FlowsOf(s.states) && s.indents[0] == -1
    ensures Agrees(Expect(Stacked(s.states) + [slot]), if slot == Item then SequenceEnd else MappingEnd, Leave(s))
  {
    var t := PopIndent(s).next;
    assert t.indents + [t.indent] == s.indents;
    PopAttaches(t);
    CloseInnermost(Stacked(s.states));
  }

  lemma {:induction false} FlowEntered(c: Settings, s: EState, r: State)
    requires IsReturnState(r) && FlowOf(r) == 1 && NodeDue(s)
    ensures InCollection(EnterFlow(c, s, true), r) && EnterFlow(c, s, true).states == s.states
  {
    assert (s.indents + [s.indent])[0] == -1;
  }

  lemma {:induction false} FlowLeaves(t: EState, r: State)
    requires (r.EFlowSequenceItem? || r.EFlowMappingKey?) && InCollection(t, r)
    ensures Agrees(Expect(Stacked(t.states) + Current(r)), if r.EFlowSequenceItem? then SequenceEnd else MappingEnd,
                   Leave(t.(flowLevel := t.flowLevel - 1)))
  {
    LeaveAgrees(t.(flowLevel := t.flowLevel - 1), if r.EFlowSequenceItem? then Item else Key);
  }

  lemma {:induction false} FlowSequenceAgrees(c: Settings, s: EState, q: seq<Event>)
    requires q != [] && InCollection(s, EFlowSequenceItem)
    ensures Agrees(Expect(Stacked(s.states) + [Item]), q[0], FlowSequenceItem(c, s, q, false))
  {
    if q[0].SequenceEnd? {
      FlowLeaves(s, EFlowSequenceItem);
    } else {
      MemberAgrees(c, s, q, EFlowSequenceItem);
    }
  }

  lemma {:induction false} FlowMappingAgrees(c: Settings, s: EState, q: seq<Event>)
    requires q != [] && InCollection(s, EFlowMappingKey)
    ensures Agrees(Expect(Stacked(s.states) + [Key]), q[0], FlowMappingKey(c, s, q, false))
  {
    if q[0].MappingEnd? {
      FlowLeaves(s, EFlowMappingKey);
    } else {
      var simple := !c.canonical && c.choices.simpleKey(q);
      MemberAgrees(c, s, q, if simple then EFlowMappingSimpleValue else EFlowMappingValue);
    }
  }

  lemma FlowEnters(c: Settings, s: EState, q: seq<Event>)
    requires q != []
    ensures FlowSequenceItem(c, s, q, true) == FlowSequenceItem(c, EnterFlow(c, s, true), q, false)
    ensures FlowMappingKey(c, s, q, true) == FlowMappingKey(c, EnterFlow(c, s, true), q, false)
  {
  }

  lemma {:induction false} FlowSequenceOpens(c: Settings, s: EState, q: seq<Event>)
    requires q != [] && NodeDue(s)
    ensures Agrees(Expect(Stacked(s.states) + [Item]), q[0], FlowSequenceItem(c, s, q, true))
  {
    FlowEnters(c, s, q);
    FlowEntered(c, s, EFlowSequenceItem);
    FlowSequenceAgrees(c, EnterFlow(c, s, true), q);
  }

  lemma {:induction false} FlowMappingOpens(c: Settings, s: EState, q: seq<Event>)
    requires q != [] && NodeDue(s)
    ensures Agrees(Expect(Stacked(s.states) + [Key]), q[0], FlowMappingKey(c, s, q, true))
  {
    FlowEnters(c, s, q);
    FlowEntered(c, s, EFlowMappingKey);
    FlowMappingAgrees(c, EnterFlow(c, s, true), q);
  }

  lemma {:induction false} BlockSequenceAgrees(c: Settings, s: EState, q: seq<Event>, first: bool)
    requires q != [] && (if first then NodeDue(s) else InCollection(s, EBlockSequenceItem))
    ensures Agrees(Expect(Stacked(s.states) + [Item]), q[0], BlockSequenceItem(c, s, q, first))
  {
    var t := EnterBlock(c, s, first, MappingContext(s.states) && c.choices.indentless(q));
    if q[0].SequenceEnd? {
      LeaveAgrees(t, Item);
    } else {
      MemberAgrees(c, t, q, EBlockSequenceItem);
    }
  }

  lemma {:induction false} BlockMappingAgrees(c: Settings, s: EState, q: seq<Event>, first: bool)
    requires q != [] && (if first then NodeDue(s) else InCollection(s, EBlockMappingKey))
    ensures Agrees(Expect(Stacked(s.states) + [Key]), q[0], BlockMappingKey(c, s, q, first))
  {
    var t := EnterBlock(c, s, first, false);
    if q[0].MappingEnd? {
      LeaveAgrees(t, Key);
    } else {
      MemberAgrees(c, t, q, if c.choices.simpleKey(q) then EBlockMappingSimpleValue else EBlockMappingValue);
    }
  }

  /** One step of the state machine is decided by the grammar position alone. */
  lemma {:induction false} StateMachineAgrees(c: Settings, s: EState, q: seq<Event>)
    requires q != [] && Inv(s)
    ensures Agrees(Position(s), q[0], StateMachine(c, s, q))
  {
    if OutsideDocument(s.state) {
      OutsideAgrees(c, s, q);
    } else {
      InsideAgrees(c, s, q);
    }
  }

  lemma {:induction false} OutsideAgrees(c: Settings, s: EState, q: seq<Event>)
    requires q != [] && Inv(s) && OutsideDocument(s.state)
    ensures Agrees(Position(s), q[0], StateMachine(c, s, q))
  {
    assert Stacked([]) == [] && FlowsOf([]) == 0;
    assert s.indents == [] && s.indents + [s.indent] == [s.indent];
    if s.state.EDocumentContent? {
      RootAgrees(c, s, q);
    } else {
      FrameAgrees(c, s.state, q);
    }
  }

  /** The states outside any document root, where both stacks are empty. */
  lemma {:induction false} FrameAgrees(c: Settings, s: State, q: seq<Event>)
    requires q != [] && OutsideDocument(s) && !s.EDocumentContent?
    ensures var e := EState(s, [], 0, -1, []);
            Agrees(Position(e), q[0], StateMachine(c, e, q))
  {
    var e := EState(s, [], 0, -1, []);
    if s.EStreamStart? {
      OutsideInv(EFirstDocumentStart);
    } else if s.EDocumentEnd? {
      OutsideInv(EDocumentStart);
    } else if !s.EEnd? {
      BetweenAgrees(e, q[0]);
    }
  }

  lemma {:induction false} BetweenAgrees(s: EState, e: Event)
    requires s == EState(s.state, [], 0, -1, [])
    ensures Agrees(Between, e, DocumentStartOrEnd(s, e))
  {
    if e.DocumentStart? {
      OutsideInv(EDocumentContent);
      assert DocumentStartOrEnd(s, e) == Accepted(EState(EDocumentContent, [], 0, -1, []));
    } else if e.StreamEnd? {
      OutsideInv(EEnd);
      assert DocumentStartOrEnd(s, e) == Accepted(EState(EEnd, [], 0, -1, []));
    }
  }

  lemma {:induction false} OutsideInv(s: State)
    requires OutsideDocument(s)
    ensures Inv(EState(s, [], 0, -1, []))
  {
    assert Stacked([]) == [] && FlowsOf([]) == 0;
  }

  lemma {:induction false} RootAgrees(c: Settings, s: EState, q: seq<Event>)
    requires q != [] && s.states == [] && s.indents == [] && s.flowLevel == 0 && s.indent == -1
    ensures Agrees(Expect([]), q[0], PushEmit(c, s, q, EDocumentEnd))
  {
    var t := s.(states := s.states + [EDocumentEnd]);
    assert t.states == [EDocumentEnd];
    assert Stacked([EDocumentEnd]) == [] && FlowsOf([EDocumentEnd]) == 0;
    if !q[0].SequenceEnd? && !q[0].MappingEnd? {
      NodeAgrees(c, t, q);
    }
  }

  lemma {:induction false} FlowInsideAgrees(c: Settings, s: EState, q: seq<Event>)
    requires q != [] && Inv(s)
    requires s.state.EFlowSequenceFirstItem? || s.state.EFlowSequenceItem? || s.state.EFlowMappingFirstKey?
             || s.state.EFlowMappingKey?
    ensures Agrees(Position(s), q[0], StateMachine(c, s, q))
  {
    assert s.indents != [] ==> (s.indents + [s.indent])[0] == s.indents[0];
    match s.state {
      case EFlowSequenceFirstItem => FlowSequenceOpens(c, s, q);
      case EFlowSequenceItem => FlowSequenceAgrees(c, s, q);
      case EFlowMappingFirstKey => FlowMappingOpens(c, s, q);
      case EFlowMappingKey => FlowMappingAgrees(c, s, q);
    }
  }

  lemma {:induction false} InsideAgrees(c: Settings, s: EState, q: seq<Event>)
    requires q != [] && Inv(s) && !OutsideDocument(s.state)
    ensures Agrees(Position(s), q[0], StateMachine(c, s, q))
  {
    assert s.indents != [] ==> (s.indents + [s.indent])[0] == s.indents[0];
    if s.state.EFlowSequenceFirstItem? || s.state.EFlowSequenceItem? || s.state.EFlowMappingFirstKey?
       || s.state.EFlowMappingKey? {
      FlowInsideAgrees(c, s, q);
      return;
    }
    match s.state {
      case EFlowMappingSimpleValue => MemberAgrees(c, s, q, EFlowMappingKey);
      case EFlowMappingValue => MemberAgrees(c, s, q, EFlowMappingKey);
      case EBlockSequenceFirstItem => BlockSequenceAgrees(c, s, q, true);
      case EBlockSequenceItem => BlockSequenceAgrees(c, s, q, false);
      case EBlockMappingFirstKey => BlockMappingAgrees(c, s, q, true);
      case EBlockMappingKey => BlockMappingAgrees(c, s, q, false);
      case EBlockMappingSimpleValue => MemberAgrees(c, s, q, EBlockMappingKey);
      case EBlockMappingValue => MemberAgrees(c, s, q, EBlockMappingKey);
    }
  }

  // ---------- whole runs ----------

  ghost predicate ContentsOk(c: Plan, events: seq<Event>) {
    forall i: nat :: i < |events| ==> c.choices(i).contentOk(events[i])
  }

  /** The events emitted so far have driven the automaton to where the state machine stands. */
  ghost predicate Tracks(s: EState, done: seq<Event>) {
    Inv(s) && Run(Start, done) == Some(Position(s))
  }

  ghost predicate DrainTracks(c: Plan, all: seq<Event>, o: Drained) {
    match o
    case DrainCrash => false
    case DrainRejected => ContentsOk(c, all) ==> Run(Start, all).None?
    case Drained(t, r, n) =>
      NeedMore(r) && |r| + n == |all| && r == all[n..] && Tracks(t, all[..n])
  }

  lemma {:induction false} AcceptedAgrees(c: Plan, s: EState, done: seq<Event>, q: seq<Event>)
    requires Tracks(s, done) && q != [] && Process(At(c, |done|), s, q).Accepted?
    ensures Tracks(Process(At(c, |done|), s, q).next, done + [q[0]])
  {
    StateMachineAgrees(At(c, |done|), s, q);
    RunSnoc(Start, done, q[0]);
  }

  lemma {:induction false} RejectedAgrees(c: Plan, s: EState, done: seq<Event>, q: seq<Event>)
    requires Tracks(s, done) && q != [] && !Process(At(c, |done|), s, q).Accepted?
    ensures Process(At(c, |done|), s, q).Rejected?
    ensures ContentsOk(c, done + q) ==> Run(Start, done + q).None?
  {
    StateMachineAgrees(At(c, |done|), s, q);
    RunSnoc(Start, done, q[0]);
    assert (done + q)[|done|] == q[0];
    assert done + [q[0]] + q[1..] == done + q;
    RunAppend(Start, done + [q[0]], q[1..]);
  }

  lemma {:induction false} WaitTracks(c: Plan, s: EState, done: seq<Event>, q: seq<Event>)
    requires Tracks(s, done) && NeedMore(q)
    ensures DrainTracks(c, done + q, Drained(s, q, |done|))
  {
    assert (done + q)[|done|..] == q && (done + q)[..|done|] == done;
  }

  lemma DrainOn(c: Plan, s: EState, q: seq<Event>, n: nat)
    requires !NeedMore(q)
    ensures Drain(c, s, q, n) == match Process(At(c, n), s, q)
                                 case Accepted(t) => Drain(c, t, q[1..], n + 1)
                                 case Rejected => DrainRejected
                                 case Crash => DrainCrash
  {
  }

  lemma {:induction false} DrainAgrees(c: Plan, s: EState, done: seq<Event>, q: seq<Event>)
    requires Tracks(s, done)
    ensures DrainTracks(c, done + q, Drain(c, s, q, |done|))
    decreases |q|
  {
    if NeedMore(q) {
      WaitTracks(c, s, done, q);
    } else {
      assert done + [q[0]] + q[1..] == done + q;
      match Process(At(c, |done|), s, q) {
        case Accepted(t) =>
          AcceptedAgrees(c, s, done, q);
          DrainOn(c, s, q, |done|);
          DrainAgrees(c, t, done + [q[0]], q[1..]);
        case Rejected => RejectedAgrees(c, s, done, q);
        case Crash => RejectedAgrees(c, s, done, q);
      }
    }
  }

  lemma {:induction false} EmitAllAgrees(c: Plan, s: EState, done: seq<Event>, q: seq<Event>, events: seq<Event>)
    requires Tracks(s, done) && NeedMore(q)
    ensures DrainTracks(c, done + q + events, EmitAll(c, s, q, |done|, events))
    decreases |events|
  {
    var all := done + q + events;
    if events == [] {
      assert all == done + q;
      assert all[|done|..] == q && all[..|done|] == done;
    } else {
      var sofar := done + (q + [events[0]]);
      assert sofar + events[1..] == all;
      DrainAgrees(c, s, done, q + [events[0]]);
      match Drain(c, s, q + [events[0]], |done|) {
        case DrainRejected =>
          assert forall i :: 0 <= i < |sofar| ==> sofar[i] == all[i];
          RunAppend(Start, sofar, events[1..]);
        case Drained(t, r, n) =>
          var done' := sofar[..n];
          assert done' + r == sofar;
          EmitAllAgrees(c, t, done', r, events[1..]);
      }
    }
  }

  // ---------- a complete word drains the queue ----------

  function Depth(c: Config): nat {
    match c
    case Start => 0
    case Between => 1
    case Expect(slots) => 2 + |slots|
    case RootDone => 2
    case End => 0
  }

  lemma {:induction false} NextDepth(c: Config, e: Event)
    requires Next(c, e).Some?
    ensures Depth(Next(c, e).value) == Depth(c) + Delta(e)
  {
  }

  lemma {:induction false} RunLevel(c: Config, q: seq<Event>)
    requires Run(c, q).Some?
    ensures Depth(Run(c, q).value) == Depth(c) + Level(q)
    decreases |q|
  {
    if q != [] {
      var u, e := q[..|q| - 1], q[|q| - 1];
      assert q == u + [e];
      RunSnoc(c, u, e);
      RunLevel(c, u);
      NextDepth(Run(c, u).value, e);
    }
  }

  /** The level moves by single steps, so on its way down it meets zero. */
  lemma {:induction false} LevelCrosses(q: seq<Event>, n: nat) returns (m: nat)
    requires 1 <= n <= |q| && Level(q[..1]) > 0 && Level(q[..n]) <= 0
    ensures 1 <= m <= |q| && Level(q[..m]) == 0
    decreases n
  {
    if Level(q[..n]) == 0 {
      m := n;
    } else {
      assert q[..n][..n - 1] == q[..n - 1];
      m := LevelCrosses(q, n - 1);
    }
  }

  lemma {:induction false} WordsDrain(c: Config, q: seq<Event>)
    requires q != [] && Run(c, q) == Some(End)
    ensures !NeedMore(q)
  {
    if Accumulate(q[0]) > 0 {
      assert c.Between? || c.Expect?;
      RunLevel(c, q);
      assert q[..|q|] == q && q[..1] == [q[0]];
      assert Level([q[0]]) == Level([]) + Delta(q[0]);
      var m := LevelCrosses(q, |q|);
    }
  }

  // ---------- main results ----------

  /**
   Whatever is emitted: the machine never pops an empty stack; the flow level counts the
   entered open flow collections and the indentation stack counts all entered ones; a
   rejection means the events do not begin any word (or one had bad content); and an event
   that leaves the grammar is found out at the latest three events later.
   */
  lemma {:induction false} EmitterFollowsGrammar(c: Plan, events: seq<Event>)
    ensures match EmitAll(c, Initial(), [], 0, events)
            case DrainCrash => false
            case DrainRejected => ContentsOk(c, events) ==> !IsPrefixOfWord(events)
            case Drained(t, q, n) =>
              && |q| <= 3 && |q| + n == |events| && q == events[n..]
              && IsPrefixOfWord(events[..n])
              && Inv(t)
  {
    StartTracks(c, events);
    AutomatonIsGrammar(events);
    match EmitAll(c, Initial(), [], 0, events) {
      case DrainCrash =>
      case DrainRejected =>
      case Drained(t, q, n) => AutomatonIsGrammar(events[..n]);
    }
  }

  lemma {:induction false} StartTracks(c: Plan, events: seq<Event>)
    ensures DrainTracks(c, events, EmitAll(c, Initial(), [], 0, events))
  {
    assert Stacked([]) == [] && FlowsOf([]) == 0;
    EmitAllAgrees(c, Initial(), [], [], events);
    assert [] + [] + events == events;
  }

  /** A whole word is accepted, and nothing is left in the queue. */
  lemma {:induction false} EmitterAcceptsWords(c: Plan, events: seq<Event>)
    requires IsWord(events) && ContentsOk(c, events)
    ensures EmitAll(c, Initial(), [], 0, events) == Drained(EState(EEnd, [], 0, -1, []), [], |events|)
  {
    AutomatonIsGrammar(events);
    StartTracks(c, events);
    var Drained(t, q, n) := EmitAll(c, Initial(), [], 0, events);
    NothingLeft(c, events, t, q, n);
    AtEnd(t);
  }

  lemma {:induction false} NothingLeft(c: Plan, events: seq<Event>, t: EState, q: seq<Event>, n: nat)
    requires DrainTracks(c, events, Drained(t, q, n)) && Run(Start, events) == Some(End)
    ensures q == [] && n == |events| && Inv(t) && Position(t) == End
  {
    var done := events[..n];
    assert done + q == events;
    RunAppend(Start, done, q);
    if q != [] {
      WordsDrain(Position(t), q);
      assert false;
    }
    assert done == events;
  }

  lemma {:induction false} AtEnd(t: EState)
    requires Inv(t) && Position(t) == End
    ensures t == EState(EEnd, [], 0, -1, [])
  {
    assert Stacked([]) == [] && FlowsOf([]) == 0;
  }
}
