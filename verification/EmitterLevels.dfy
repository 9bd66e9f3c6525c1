/**
 Indentation.  In every reachable state the saved levels and the current one, in order, are
 -1 and then the level of each collection entered: what each step does to them, told without
 the stack operations that do it.
 */
module EmitterLevels {
  import opened Wrappers
  import opened G = EventGrammar
  import opened EmitterSpec
  import opened EmitterSound

  function Levels(s: EState): seq<int> { s.indents + [s.indent] }

  /** The states of the collections entered, outermost first. */
  function OpenStates(s: EState): seq<State> {
    (if s.states == [] then [] else s.states[1..])
    + (if IsFirst(s.state) || OutsideDocument(s.state) then [] else [s.state])
  }

  /**
   A collection at `inner` inside one at `outer`.  At the root a block collection stands at the
   margin and a flow collection one step in; elsewhere every collection stands one step in, but
   for a sequence that is a key or a value, which may stand where the mapping does.
   */
  predicate LevelFits(outer: int, inner: int, flow: bool, member: bool, best: int) {
    if outer == -1 then inner == if flow then best else 0
    else inner == outer + best || (inner == outer && !flow && member)
  }

  /** `levels` are those of the collections in the states `open`, from outside in. */
  ghost predicate Fit(levels: seq<int>, open: seq<State>, best: int) {
    && |levels| == |open| + 1 && levels[0] == -1
    && forall i :: 0 <= i < |open| ==>
         LevelFits(levels[i], levels[i + 1], FlowOf(open[i]) == 1,
                   open[i].EBlockSequenceItem? && MappingContext(open[..i]), best)
  }

  lemma {:induction false} FitBound(levels: seq<int>, open: seq<State>, best: int, i: nat)
    requires Fit(levels, open, best) && best >= 0 && i <= |open|
    ensures levels[i] >= if i == 0 then -1 else 0
    decreases i
  {
    if i > 0 {
      FitBound(levels, open, best, i - 1);
      assert LevelFits(levels[i - 1], levels[i], FlowOf(open[i - 1]) == 1,
                       open[i - 1].EBlockSequenceItem? && MappingContext(open[..i - 1]), best);
    }
  }

  lemma {:induction false} FitMore(levels: seq<int>, open: seq<State>, best: int, level: int, r: State)
    requires Fit(levels, open, best)
    requires LevelFits(levels[|open|], level, FlowOf(r) == 1, r.EBlockSequenceItem? && MappingContext(open), best)
    ensures Fit(levels + [level], open + [r], best)
  {
    var more := open + [r];
    assert more[..|open|] == open;
    forall i | 0 <= i < |open| ensures more[..i] == open[..i] {
    }
  }

  lemma {:induction false} FitLess(levels: seq<int>, open: seq<State>, best: int)
    requires Fit(levels, open, best) && open != []
    ensures Fit(levels[..|open|], open[..|open| - 1], best)
  {
    var less := open[..|open| - 1];
    forall i | 0 <= i < |less| ensures less[..i] == open[..i] && less[i] == open[i] {
    }
  }

  /** The innermost collection goes on to its next part. */
  lemma {:induction false} FitOn(levels: seq<int>, open: seq<State>, best: int, r: State)
    requires Fit(levels, open, best) && open != []
    requires FlowOf(r) == FlowOf(open[|open| - 1]) && r.EBlockSequenceItem? == open[|open| - 1].EBlockSequenceItem?
    ensures Fit(levels, open[..|open| - 1] + [r], best)
  {
    var n := |open| - 1;
    FitLess(levels, open, best);
    assert LevelFits(levels[n], levels[n + 1], FlowOf(open[n]) == 1,
                     open[n].EBlockSequenceItem? && MappingContext(open[..n]), best);
    FitMore(levels[..n + 1], open[..n], best, levels[n + 1], r);
    assert levels[..n + 1] + [levels[n + 1]] == levels;
  }

  ghost predicate LevelsFit(s: EState, best: int) { Fit(Levels(s), OpenStates(s), best) }

  lemma {:induction false} IndentBound(s: EState, best: int)
    requires LevelsFit(s, best) && best >= 0
    ensures s.indent >= -1
  {
    FitBound(Levels(s), OpenStates(s), best, |OpenStates(s)|);
  }

  // ---------- one step ----------

  /** The level at which the collection that `s` is about to enter will stand. */
  function EnteredLevel(c: Settings, s: EState, q: seq<Event>): int {
    if s.indent == -1 then if s.state.EFlowSequenceFirstItem? || s.state.EFlowMappingFirstKey? then c.bestIndent else 0
    else if s.state.EBlockSequenceFirstItem? && MappingContext(s.states) && c.choices.indentless(q) then s.indent
    else s.indent + c.bestIndent
  }

  /** What one step does: a collection entered adds a level, unless it ends at once; a collection left drops one. */
  ghost predicate LevelsMove(c: Settings, s: EState, q: seq<Event>, t: EState)
    requires q != []
  {
    var ends := q[0].SequenceEnd? || q[0].MappingEnd?;
    if IsFirst(s.state) then Levels(t) == if ends then Levels(s) else Levels(s) + [EnteredLevel(c, s, q)]
    else Levels(t) == if ends then s.indents else Levels(s)
  }

  lemma {:induction false} LevelsRestored(s: EState)
    requires s.indents != []
    ensures PopIndent(s).Accepted? && Levels(PopIndent(s).next) == s.indents
  {
  }

  /** A node, or the end of its collection, is due; `r` is the state to return to. */
  lemma {:induction false} NodeLevels(c: Settings, s: EState, q: seq<Event>, r: State)
    requires q != [] && s.states != [] && s.states[0] == EDocumentEnd && PushEmit(c, s, q, r).Accepted?
    requires IsReturnState(r)
    ensures var t := PushEmit(c, s, q, r).next; Levels(t) == Levels(s) && OpenStates(t) == s.states[1..] + [r]
    ensures !q[0].SequenceEnd? && !q[0].MappingEnd?
  {
    var u := s.(states := s.states + [r]);
    assert u.states[..|s.states|] == s.states && u.states[1..] == s.states[1..] + [r];
    if q[0].Scalar? {
      IndentRestored(u, c.bestIndent, true, false);
    }
  }

  lemma {:induction false} LeaveLevels(s: EState)
    requires s.indents != [] && DocumentStack(s.states) && Leave(s).Accepted?
    ensures Levels(Leave(s).next) == s.indents && OpenStates(Leave(s).next) == s.states[1..]
  {
    var rest, top := s.states[..|s.states| - 1], s.states[|s.states| - 1];
    LevelsRestored(s);
    if |s.states| > 1 {
      assert IsReturnState(top);
      assert rest[1..] + [top] == s.states[1..];
    }
  }

  lemma InsideOne(s: EState)
    requires s.states != [] && IsReturnState(s.state)
    ensures OpenStates(s) == s.states[1..] + [s.state] && OpenStates(s)[..|OpenStates(s)| - 1] == s.states[1..]
  {
  }

  /** A member of the innermost collection, which goes on to `r`. */
  lemma {:induction false} MemberLevels(c: Settings, s: EState, q: seq<Event>, r: State)
    requires q != [] && DocumentStack(s.states) && IsReturnState(s.state) && IsReturnState(r)
    requires FlowOf(r) == FlowOf(s.state) && r.EBlockSequenceItem? == s.state.EBlockSequenceItem?
    requires LevelsFit(s, c.bestIndent) && PushEmit(c, s, q, r).Accepted?
    ensures LevelsFit(PushEmit(c, s, q, r).next, c.bestIndent) && LevelsMove(c, s, q, PushEmit(c, s, q, r).next)
  {
    NodeLevels(c, s, q, r);
    InsideOne(s);
    FitOn(Levels(s), OpenStates(s), c.bestIndent, r);
  }

  lemma {:induction false} ClosedLevels(c: Settings, s: EState, q: seq<Event>, u: EState)
    requires q != [] && (q[0].SequenceEnd? || q[0].MappingEnd?) && DocumentStack(s.states) && IsReturnState(s.state)
    requires LevelsFit(s, c.bestIndent) && u == s.(flowLevel := u.flowLevel) && Leave(u).Accepted?
    ensures LevelsFit(Leave(u).next, c.bestIndent) && LevelsMove(c, s, q, Leave(u).next)
  {
    LeaveLevels(u);
    InsideOne(s);
    FitLess(Levels(s), OpenStates(s), c.bestIndent);
    assert Levels(s)[..|OpenStates(s)|] == s.indents;
  }

  lemma AboutToEnter(s: EState)
    requires s.states != [] && IsFirst(s.state)
    ensures OpenStates(s) == s.states[1..]
  {
  }

  lemma {:induction false} EnteredFits(c: Settings, s: EState, q: seq<Event>, r: State)
    requires s.indent >= -1 && c.bestIndent >= 0 && DocumentStack(s.states) && |s.indents| == |s.states[1..]|
    requires FlowOf(r) == 1 <==> s.state.EFlowSequenceFirstItem? || s.state.EFlowMappingFirstKey?
    requires r.EBlockSequenceItem? <==> s.state.EBlockSequenceFirstItem?
    ensures LevelFits(Levels(s)[|s.states[1..]|], EnteredLevel(c, s, q), FlowOf(r) == 1,
                      r.EBlockSequenceItem? && MappingContext(s.states[1..]), c.bestIndent)
  {
    SameContext(s.states);
    assert Levels(s)[|s.states[1..]|] == s.indent;
  }

  /** A collection entered: `u` is the state in which its members are due, `r` the first state to return to. */
  lemma {:induction false} EnteredLevels(c: Settings, s: EState, q: seq<Event>, u: EState, r: State)
    requires q != [] && DocumentStack(s.states) && IsFirst(s.state) && LevelsFit(s, c.bestIndent) && c.bestIndent >= 0
    requires u == s.(indents := Levels(s), indent := EnteredLevel(c, s, q), flowLevel := u.flowLevel)
    requires IsReturnState(r) && (FlowOf(r) == 1 <==> s.state.EFlowSequenceFirstItem? || s.state.EFlowMappingFirstKey?)
    requires r.EBlockSequenceItem? <==> s.state.EBlockSequenceFirstItem?
    requires PushEmit(c, u, q, r).Accepted?
    ensures LevelsFit(PushEmit(c, u, q, r).next, c.bestIndent) && LevelsMove(c, s, q, PushEmit(c, u, q, r).next)
  {
    NodeLevels(c, u, q, r);
    AboutToEnter(s);
    FitBound(Levels(s), OpenStates(s), c.bestIndent, |OpenStates(s)|);
    EnteredFits(c, s, q, r);
    FitMore(Levels(s), s.states[1..], c.bestIndent, u.indent, r);
  }

  /** The document's own entry is no key and no value. */
  lemma {:induction false} SameContext(states: seq<State>)
    requires DocumentStack(states)
    ensures MappingContext(states) <==> MappingContext(states[1..])
  {
  }

  /** An empty collection: entered and left at once. */
  lemma {:induction false} EmptyLevels(c: Settings, s: EState, q: seq<Event>, u: EState)
    requires q != [] && (q[0].SequenceEnd? || q[0].MappingEnd?)
    requires DocumentStack(s.states) && IsFirst(s.state) && LevelsFit(s, c.bestIndent)
    requires u.indents == Levels(s) && u.states == s.states && Leave(u).Accepted?
    ensures LevelsFit(Leave(u).next, c.bestIndent) && LevelsMove(c, s, q, Leave(u).next)
  {
    LeaveLevels(u);
    AboutToEnter(s);
  }

  lemma {:induction false} FlowSequenceOpenLevels(c: Settings, s: EState, q: seq<Event>)
    requires q != [] && DocumentStack(s.states) && LevelsFit(s, c.bestIndent) && c.bestIndent >= 0
    requires s.state == EFlowSequenceFirstItem && FlowSequenceItem(c, s, q, true).Accepted?
    ensures var t := FlowSequenceItem(c, s, q, true).next; LevelsFit(t, c.bestIndent) && LevelsMove(c, s, q, t)
  {
    FitBound(Levels(s), OpenStates(s), c.bestIndent, |OpenStates(s)|);
    if q[0].SequenceEnd? {
      var u := EnterFlow(c, s, true);
      EmptyLevels(c, s, q, u.(flowLevel := u.flowLevel - 1));
    } else {
      EnteredLevels(c, s, q, EnterFlow(c, s, true), EFlowSequenceItem);
    }
  }

  lemma {:induction false} FlowSequenceLevels(c: Settings, s: EState, q: seq<Event>)
    requires q != [] && DocumentStack(s.states) && LevelsFit(s, c.bestIndent) && c.bestIndent >= 0
    requires s.state == EFlowSequenceItem && FlowSequenceItem(c, s, q, false).Accepted?
    ensures var t := FlowSequenceItem(c, s, q, false).next; LevelsFit(t, c.bestIndent) && LevelsMove(c, s, q, t)
  {
    FitBound(Levels(s), OpenStates(s), c.bestIndent, |OpenStates(s)|);
    if q[0].SequenceEnd? {
      ClosedLevels(c, s, q, s.(flowLevel := s.flowLevel - 1));
    } else {
      MemberLevels(c, s, q, EFlowSequenceItem);
    }
  }

  lemma {:induction false} FlowMappingOpenLevels(c: Settings, s: EState, q: seq<Event>)
    requires q != [] && DocumentStack(s.states) && LevelsFit(s, c.bestIndent) && c.bestIndent >= 0
    requires s.state == EFlowMappingFirstKey && FlowMappingKey(c, s, q, true).Accepted?
    ensures var t := FlowMappingKey(c, s, q, true).next; LevelsFit(t, c.bestIndent) && LevelsMove(c, s, q, t)
  {
    FitBound(Levels(s), OpenStates(s), c.bestIndent, |OpenStates(s)|);
    var r := if !c.canonical && c.choices.simpleKey(q) then EFlowMappingSimpleValue else EFlowMappingValue;
    if q[0].MappingEnd? {
      var u := EnterFlow(c, s, true);
      EmptyLevels(c, s, q, u.(flowLevel := u.flowLevel - 1));
    } else {
      EnteredLevels(c, s, q, EnterFlow(c, s, true), r);
    }
  }

  lemma {:induction false} FlowMappingLevels(c: Settings, s: EState, q: seq<Event>)
    requires q != [] && DocumentStack(s.states) && LevelsFit(s, c.bestIndent) && c.bestIndent >= 0
    requires s.state == EFlowMappingKey && FlowMappingKey(c, s, q, false).Accepted?
    ensures var t := FlowMappingKey(c, s, q, false).next; LevelsFit(t, c.bestIndent) && LevelsMove(c, s, q, t)
  {
    var r := if !c.canonical && c.choices.simpleKey(q) then EFlowMappingSimpleValue else EFlowMappingValue;
    if q[0].MappingEnd? {
      ClosedLevels(c, s, q, s.(flowLevel := s.flowLevel - 1));
    } else {
      MemberLevels(c, s, q, r);
    }
  }

  lemma {:induction false} BlockSequenceOpenLevels(c: Settings, s: EState, q: seq<Event>)
    requires q != [] && DocumentStack(s.states) && LevelsFit(s, c.bestIndent) && c.bestIndent >= 0
    requires s.state == EBlockSequenceFirstItem && BlockSequenceItem(c, s, q, true).Accepted?
    ensures var t := BlockSequenceItem(c, s, q, true).next; LevelsFit(t, c.bestIndent) && LevelsMove(c, s, q, t)
  {
    FitBound(Levels(s), OpenStates(s), c.bestIndent, |OpenStates(s)|);
    var u := EnterBlock(c, s, true, MappingContext(s.states) && c.choices.indentless(q));
    if q[0].SequenceEnd? {
      EmptyLevels(c, s, q, u);
    } else {
      EnteredLevels(c, s, q, u, EBlockSequenceItem);
    }
  }

  lemma {:induction false} BlockSequenceLevels(c: Settings, s: EState, q: seq<Event>)
    requires q != [] && DocumentStack(s.states) && LevelsFit(s, c.bestIndent) && c.bestIndent >= 0
    requires s.state == EBlockSequenceItem && BlockSequenceItem(c, s, q, false).Accepted?
    ensures var t := BlockSequenceItem(c, s, q, false).next; LevelsFit(t, c.bestIndent) && LevelsMove(c, s, q, t)
  {
    FitBound(Levels(s), OpenStates(s), c.bestIndent, |OpenStates(s)|);
    if q[0].SequenceEnd? {
      ClosedLevels(c, s, q, s);
    } else {
      MemberLevels(c, s, q, EBlockSequenceItem);
    }
  }

  lemma {:induction false} BlockMappingOpenLevels(c: Settings, s: EState, q: seq<Event>)
    requires q != [] && DocumentStack(s.states) && LevelsFit(s, c.bestIndent) && c.bestIndent >= 0
    requires s.state == EBlockMappingFirstKey && BlockMappingKey(c, s, q, true).Accepted?
    ensures var t := BlockMappingKey(c, s, q, true).next; LevelsFit(t, c.bestIndent) && LevelsMove(c, s, q, t)
  {
    FitBound(Levels(s), OpenStates(s), c.bestIndent, |OpenStates(s)|);
    var r := if c.choices.simpleKey(q) then EBlockMappingSimpleValue else EBlockMappingValue;
    if q[0].MappingEnd? {
      EmptyLevels(c, s, q, EnterBlock(c, s, true, false));
    } else {
      EnteredLevels(c, s, q, EnterBlock(c, s, true, false), r);
    }
  }

  lemma {:induction false} BlockMappingLevels(c: Settings, s: EState, q: seq<Event>)
    requires q != [] && DocumentStack(s.states) && LevelsFit(s, c.bestIndent) && c.bestIndent >= 0
    requires s.state == EBlockMappingKey && BlockMappingKey(c, s, q, false).Accepted?
    ensures var t := BlockMappingKey(c, s, q, false).next; LevelsFit(t, c.bestIndent) && LevelsMove(c, s, q, t)
  {
    FitBound(Levels(s), OpenStates(s), c.bestIndent, |OpenStates(s)|);
    var r := if c.choices.simpleKey(q) then EBlockMappingSimpleValue else EBlockMappingValue;
    if q[0].MappingEnd? {
      ClosedLevels(c, s, q, s);
    } else {
      MemberLevels(c, s, q, r);
    }
  }

  lemma {:induction false} OutsideLevels(c: Settings, s: EState, q: seq<Event>)
    requires q != [] && Inv(s) && OutsideDocument(s.state) && StateMachine(c, s, q).Accepted?
    ensures var t := StateMachine(c, s, q).next; LevelsFit(t, c.bestIndent) && LevelsMove(c, s, q, t)
  {
    assert Stacked([]) == [] && s.indents == [] && s.indent == -1;
    if s.state.EDocumentContent? {
      var u := s.(states := s.states + [EDocumentEnd]);
      assert u.states == [EDocumentEnd];
      if q[0].Scalar? {
        IndentRestored(u, c.bestIndent, true, false);
      }
    }
  }

  /** Every step of a reachable state keeps the levels fitting, and moves them as it should. */
  lemma {:induction false} StepLevels(c: Settings, s: EState, q: seq<Event>)
    requires q != [] && Inv(s) && LevelsFit(s, c.bestIndent) && c.bestIndent >= 0 && StateMachine(c, s, q).Accepted?
    ensures var t := StateMachine(c, s, q).next; LevelsFit(t, c.bestIndent) && LevelsMove(c, s, q, t)
  {
    if OutsideDocument(s.state) {
      OutsideLevels(c, s, q);
      return;
    }
    match s.state {
      case EFlowSequenceFirstItem => FlowSequenceOpenLevels(c, s, q);
      case EFlowSequenceItem => FlowSequenceLevels(c, s, q);
      case EFlowMappingFirstKey => FlowMappingOpenLevels(c, s, q);
      case EFlowMappingKey => FlowMappingLevels(c, s, q);
      case EFlowMappingSimpleValue => MemberLevels(c, s, q, EFlowMappingKey);
      case EFlowMappingValue => MemberLevels(c, s, q, EFlowMappingKey);
      case EBlockSequenceFirstItem => BlockSequenceOpenLevels(c, s, q);
      case EBlockSequenceItem => BlockSequenceLevels(c, s, q);
      case EBlockMappingFirstKey => BlockMappingOpenLevels(c, s, q);
      case EBlockMappingKey => BlockMappingLevels(c, s, q);
      case EBlockMappingSimpleValue => MemberLevels(c, s, q, EBlockMappingKey);
      case EBlockMappingValue => MemberLevels(c, s, q, EBlockMappingKey);
    }
  }
}
