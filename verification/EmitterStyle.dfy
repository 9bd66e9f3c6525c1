/**
 Flow and block style, simple keys, and lookahead.  No block collection stands inside a flow
 collection or in canonical output, an empty collection is always written in flow style, and
 the events held back are enough to tell.
 */
module EmitterStyle {
  import opened Wrappers
  import opened G = EventGrammar
  import opened EmitterSpec
  import opened EmitterSound
  import opened EmitterLevels

  /** The state of a flow collection, entered or about to be. */
  predicate InFlow(s: State) {
    || s.EFlowSequenceFirstItem? || s.EFlowSequenceItem?
    || s.EFlowMappingFirstKey? || s.EFlowMappingKey? || s.EFlowMappingSimpleValue? || s.EFlowMappingValue?
  }

  /** The states of the open collections, outermost first. */
  function Chain(s: EState): seq<State> {
    if OutsideDocument(s.state) || s.states == [] then [] else s.states[1..] + [s.state]
  }

  predicate SomeFlow(chain: seq<State>) { exists i :: 0 <= i < |chain| && InFlow(chain[i]) }

  /** Once in flow style, always in flow style; in canonical output from the start. */
  predicate FlowsInward(chain: seq<State>, canonical: bool) {
    && (forall i, j :: 0 <= i < j < |chain| && InFlow(chain[i]) ==> InFlow(chain[j]))
    && (canonical ==> forall i :: 0 <= i < |chain| ==> InFlow(chain[i]))
  }

  lemma {:induction false} FlowsMore(chain: seq<State>, canonical: bool, x: State)
    requires FlowsInward(chain, canonical) && (SomeFlow(chain) || canonical ==> InFlow(x))
    ensures FlowsInward(chain + [x], canonical)
    ensures SomeFlow(chain + [x]) <==> SomeFlow(chain) || InFlow(x)
  {
    var more := chain + [x];
    if SomeFlow(chain) {
      var i :| 0 <= i < |chain| && InFlow(chain[i]);
      assert InFlow(more[i]);
    }
    assert more[|chain|] == x;
  }

  /** The last collection goes on to a part of the same style. */
  lemma {:induction false} FlowsOn(chain: seq<State>, canonical: bool, s: State, r: State)
    requires FlowsInward(chain + [s], canonical) && (InFlow(r) <==> InFlow(s))
    ensures FlowsInward(chain, canonical) && FlowsInward(chain + [r], canonical)
    ensures SomeFlow(chain + [r]) <==> SomeFlow(chain + [s])
  {
    var all := chain + [s];
    assert all[|chain|] == s;
    forall i | 0 <= i < |chain| ensures chain[i] == all[i] {
    }
    if SomeFlow(chain) {
      var i :| 0 <= i < |chain| && InFlow(chain[i]);
      assert InFlow(all[i]);
    }
    FlowsMore(chain, canonical, r);
    FlowsMore(chain, canonical, s);
  }

  lemma {:induction false} FlowsCount(states: seq<State>)
    requires forall i :: 0 <= i < |states| ==> !IsFirst(states[i])
    ensures FlowsOf(states) > 0 <==> SomeFlow(states)
    decreases |states|
  {
    if states != [] {
      var init, last := states[..|states| - 1], states[|states| - 1];
      FlowsCount(init);
      assert states == init + [last];
      if SomeFlow(states) {
        var i :| 0 <= i < |states| && InFlow(states[i]);
        assert i < |init| ==> InFlow(init[i]);
      }
      if SomeFlow(init) {
        var i :| 0 <= i < |init| && InFlow(init[i]);
        assert InFlow(states[i]);
      }
      assert states[|init|] == last;
    }
  }

  /** What is said of the style of a node just opened: asked for, imposed, or chosen because the node is empty. */
  ghost predicate OpenedWell(c: Settings, chain: seq<State>, q: seq<Event>, t: EState)
    requires q != []
  {
    IsOpenEvent(q[0]) ==>
      (InFlow(t.state) <==>
         || SomeFlow(chain) || c.canonical
         || (q[0].SequenceStart? && (q[0].layout == Flow || (|q| > 1 && q[1].SequenceEnd?)))
         || (q[0].MappingStart? && (q[0].layout == Flow || (|q| > 1 && q[1].MappingEnd?))))
  }

  /** A node in a collection of states `base` and then `r`. */
  lemma {:induction false} NodeStyle(c: Settings, u: EState, q: seq<Event>, r: State)
    requires q != [] && DocumentStack(u.states) && IsReturnState(r) && PushEmit(c, u, q, r).Accepted?
    requires FlowsInward(u.states[1..] + [r], c.canonical)
    requires u.flowLevel > 0 <==> SomeFlow(u.states[1..] + [r])
    ensures var t := PushEmit(c, u, q, r).next;
            FlowsInward(Chain(t), c.canonical) && OpenedWell(c, u.states[1..] + [r], q, t)
  {
    var v := u.(states := u.states + [r]);
    assert v.states[..|u.states|] == u.states && v.states[1..] == u.states[1..] + [r];
    if q[0].Scalar? {
      IndentRestored(v, c.bestIndent, true, false);
    }
    if IsOpenEvent(q[0]) {
      FlowsMore(u.states[1..] + [r], c.canonical, EmitNode(c, v, q).next.state);
    }
  }

  lemma {:induction false} LevelTells(s: EState, r: State)
    requires DocumentStack(s.states) && IsReturnState(r)
    ensures FlowsOf(s.states) + FlowOf(r) > 0 <==> SomeFlow(s.states[1..] + [r])
  {
    var base := s.states[1..];
    assert s.states == [EDocumentEnd] + base;
    FlowsCount(s.states);
    SomeFlowIn([EDocumentEnd], base);
    SomeFlowIn(base, [r]);
  }

  lemma {:induction false} SomeFlowIn(a: seq<State>, b: seq<State>)
    ensures SomeFlow(a + b) <==> SomeFlow(a) || SomeFlow(b)
    ensures |b| == 1 ==> (SomeFlow(b) <==> InFlow(b[0]))
  {
    if SomeFlow(a + b) {
      var i :| 0 <= i < |a + b| && InFlow((a + b)[i]);
      assert if i < |a| then InFlow(a[i]) else InFlow(b[i - |a|]);
    }
    if SomeFlow(a) {
      var i :| 0 <= i < |a| && InFlow(a[i]);
      assert InFlow((a + b)[i]);
    }
    if SomeFlow(b) {
      var i :| 0 <= i < |b| && InFlow(b[i]);
      assert InFlow((a + b)[|a| + i]);
    }
  }

  /** A member of the collection of `s`, entered by now in `u`; `r` is its next part. */
  lemma {:induction false} MemberStyle(c: Settings, s: EState, u: EState, q: seq<Event>, r: State)
    requires q != [] && DocumentStack(s.states) && FlowsInward(Chain(s), c.canonical) && !OutsideDocument(s.state)
    requires u.states == s.states && u.flowLevel == FlowsOf(s.states) + FlowOf(r)
    requires IsReturnState(r) && (InFlow(r) <==> InFlow(s.state)) && PushEmit(c, u, q, r).Accepted?
    ensures var t := PushEmit(c, u, q, r).next; FlowsInward(Chain(t), c.canonical) && OpenedWell(c, Chain(s), q, t)
  {
    FlowsOn(s.states[1..], c.canonical, s.state, r);
    LevelTells(u, r);
    NodeStyle(c, u, q, r);
  }

  lemma {:induction false} LeftStyle(s: EState, canonical: bool, u: EState)
    requires DocumentStack(s.states) && FlowsInward(Chain(s), canonical) && !OutsideDocument(s.state)
    requires u.states == s.states && Leave(u).Accepted?
    ensures FlowsInward(Chain(Leave(u).next), canonical)
  {
    var rest, top := s.states[..|s.states| - 1], s.states[|s.states| - 1];
    FlowsOn(s.states[1..], canonical, s.state, s.state);
    if |s.states| > 1 {
      assert rest[1..] + [top] == s.states[1..];
    }
  }

  lemma {:induction false} RootStyle(c: Settings, s: EState, q: seq<Event>)
    requires q != [] && Inv(s) && OutsideDocument(s.state) && StateMachine(c, s, q).Accepted?
    ensures var t := StateMachine(c, s, q).next;
            FlowsInward(Chain(t), c.canonical) && OpenedWell(c, Chain(s), q, t)
  {
    assert Stacked([]) == [] && FlowsOf([]) == 0;
    if s.state.EDocumentContent? {
      var u := s.(states := s.states + [EDocumentEnd]);
      assert u.states == [EDocumentEnd] && u.states[1..] == [];
      if q[0].Scalar? {
        IndentRestored(u, c.bestIndent, true, false);
      }
      if IsOpenEvent(q[0]) {
        FlowsMore([], c.canonical, EmitNode(c, u, q).next.state);
        assert [] + [EmitNode(c, u, q).next.state] == [EmitNode(c, u, q).next.state];
      }
    }
  }

  lemma {:induction false} FlowSequenceOpenStyle(c: Settings, s: EState, q: seq<Event>)
    requires q != [] && Inv(s) && FlowsInward(Chain(s), c.canonical)
    requires s.state == EFlowSequenceFirstItem && FlowSequenceItem(c, s, q, true).Accepted?
    ensures var t := FlowSequenceItem(c, s, q, true).next;
            FlowsInward(Chain(t), c.canonical) && OpenedWell(c, Chain(s), q, t)
  {
    var u := EnterFlow(c, s, true);
    if q[0].SequenceEnd? {
      LeftStyle(s, c.canonical, u.(flowLevel := u.flowLevel - 1));
    } else {
      MemberStyle(c, s, u, q, EFlowSequenceItem);
    }
  }

  lemma {:induction false} FlowMappingOpenStyle(c: Settings, s: EState, q: seq<Event>)
    requires q != [] && Inv(s) && FlowsInward(Chain(s), c.canonical)
    requires s.state == EFlowMappingFirstKey && FlowMappingKey(c, s, q, true).Accepted?
    ensures var t := FlowMappingKey(c, s, q, true).next;
            FlowsInward(Chain(t), c.canonical) && OpenedWell(c, Chain(s), q, t)
  {
    var u := EnterFlow(c, s, true);
    if q[0].MappingEnd? {
      LeftStyle(s, c.canonical, u.(flowLevel := u.flowLevel - 1));
    } else {
      var simple := !c.canonical && c.choices.simpleKey(q);
      MemberStyle(c, s, u, q, if simple then EFlowMappingSimpleValue else EFlowMappingValue);
    }
  }

  lemma {:induction false} BlockSequenceOpenStyle(c: Settings, s: EState, q: seq<Event>)
    requires q != [] && Inv(s) && FlowsInward(Chain(s), c.canonical)
    requires s.state == EBlockSequenceFirstItem && BlockSequenceItem(c, s, q, true).Accepted?
    ensures var t := BlockSequenceItem(c, s, q, true).next;
            FlowsInward(Chain(t), c.canonical) && OpenedWell(c, Chain(s), q, t)
  {
    var u := EnterBlock(c, s, true, MappingContext(s.states) && c.choices.indentless(q));
    if q[0].SequenceEnd? {
      LeftStyle(s, c.canonical, u);
    } else {
      MemberStyle(c, s, u, q, EBlockSequenceItem);
    }
  }

  lemma {:induction false} BlockMappingOpenStyle(c: Settings, s: EState, q: seq<Event>)
    requires q != [] && Inv(s) && FlowsInward(Chain(s), c.canonical)
    requires s.state == EBlockMappingFirstKey && BlockMappingKey(c, s, q, true).Accepted?
    ensures var t := BlockMappingKey(c, s, q, true).next;
            FlowsInward(Chain(t), c.canonical) && OpenedWell(c, Chain(s), q, t)
  {
    var u := EnterBlock(c, s, true, false);
    if q[0].MappingEnd? {
      LeftStyle(s, c.canonical, u);
    } else {
      var simple := c.choices.simpleKey(q);
      MemberStyle(c, s, u, q, if simple then EBlockMappingSimpleValue else EBlockMappingValue);
    }
  }

  lemma {:induction false} FlowSequenceStyle(c: Settings, s: EState, q: seq<Event>)
    requires q != [] && Inv(s) && FlowsInward(Chain(s), c.canonical)
    requires s.state == EFlowSequenceItem && FlowSequenceItem(c, s, q, false).Accepted?
    ensures var t := FlowSequenceItem(c, s, q, false).next;
            FlowsInward(Chain(t), c.canonical) && OpenedWell(c, Chain(s), q, t)
  {
    var u := s;
    if q[0].SequenceEnd? {
      LeftStyle(s, c.canonical, u.(flowLevel := u.flowLevel - 1));
    } else {
      MemberStyle(c, s, u, q, EFlowSequenceItem);
    }
  }

  lemma {:induction false} FlowMappingStyle(c: Settings, s: EState, q: seq<Event>)
    requires q != [] && Inv(s) && FlowsInward(Chain(s), c.canonical)
    requires s.state == EFlowMappingKey && FlowMappingKey(c, s, q, false).Accepted?
    ensures var t := FlowMappingKey(c, s, q, false).next;
            FlowsInward(Chain(t), c.canonical) && OpenedWell(c, Chain(s), q, t)
  {
    var u := s;
    if q[0].MappingEnd? {
      LeftStyle(s, c.canonical, u.(flowLevel := u.flowLevel - 1));
    } else {
      var simple := !c.canonical && c.choices.simpleKey(q);
      MemberStyle(c, s, u, q, if simple then EFlowMappingSimpleValue else EFlowMappingValue);
    }
  }

  lemma {:induction false} BlockSequenceStyle(c: Settings, s: EState, q: seq<Event>)
    requires q != [] && Inv(s) && FlowsInward(Chain(s), c.canonical)
    requires s.state == EBlockSequenceItem && BlockSequenceItem(c, s, q, false).Accepted?
    ensures var t := BlockSequenceItem(c, s, q, false).next;
            FlowsInward(Chain(t), c.canonical) && OpenedWell(c, Chain(s), q, t)
  {
    var u := s;
    if q[0].SequenceEnd? {
      LeftStyle(s, c.canonical, u);
    } else {
      MemberStyle(c, s, u, q, EBlockSequenceItem);
    }
  }

  lemma {:induction false} BlockMappingStyle(c: Settings, s: EState, q: seq<Event>)
    requires q != [] && Inv(s) && FlowsInward(Chain(s), c.canonical)
    requires s.state == EBlockMappingKey && BlockMappingKey(c, s, q, false).Accepted?
    ensures var t := BlockMappingKey(c, s, q, false).next;
            FlowsInward(Chain(t), c.canonical) && OpenedWell(c, Chain(s), q, t)
  {
    var u := s;
    if q[0].MappingEnd? {
      LeftStyle(s, c.canonical, u);
    } else {
      var simple := c.choices.simpleKey(q);
      MemberStyle(c, s, u, q, if simple then EBlockMappingSimpleValue else EBlockMappingValue);
    }
  }

  /**
   One step keeps flow style inward, and opens a node in flow style exactly where it is inside a
   flow collection, in canonical output, asked for, or empty.
   */
  lemma {:induction false} StepStyle(c: Settings, s: EState, q: seq<Event>)
    requires q != [] && Inv(s) && FlowsInward(Chain(s), c.canonical) && StateMachine(c, s, q).Accepted?
    ensures var t := StateMachine(c, s, q).next;
            FlowsInward(Chain(t), c.canonical) && OpenedWell(c, Chain(s), q, t)
  {
    if OutsideDocument(s.state) {
      RootStyle(c, s, q);
      return;
    }
    match s.state {
      case EFlowSequenceFirstItem => FlowSequenceOpenStyle(c, s, q);
      case EFlowSequenceItem => FlowSequenceStyle(c, s, q);
      case EFlowMappingFirstKey => FlowMappingOpenStyle(c, s, q);
      case EFlowMappingKey => FlowMappingStyle(c, s, q);
      case EFlowMappingSimpleValue => MemberStyle(c, s, s, q, EFlowMappingKey);
      case EFlowMappingValue => MemberStyle(c, s, s, q, EFlowMappingKey);
      case EBlockSequenceFirstItem => BlockSequenceOpenStyle(c, s, q);
      case EBlockSequenceItem => BlockSequenceStyle(c, s, q);
      case EBlockMappingFirstKey => BlockMappingOpenStyle(c, s, q);
      case EBlockMappingKey => BlockMappingStyle(c, s, q);
      case EBlockMappingSimpleValue => MemberStyle(c, s, s, q, EBlockMappingKey);
      case EBlockMappingValue => MemberStyle(c, s, s, q, EBlockMappingKey);
    }
  }

  // ---------- simple keys ----------

  /** The state in which a node left its mapping, or will when it is complete. */
  function Returns(t: EState): State
    requires t.states != [] || !IsFirst(t.state)
  {
    if IsFirst(t.state) then t.states[|t.states| - 1] else t.state
  }

  lemma {:induction false} KeyReturns(c: Settings, u: EState, q: seq<Event>, r: State)
    requires q != [] && u.states != [] && IsReturnState(r) && PushEmit(c, u, q, r).Accepted?
    ensures var t := PushEmit(c, u, q, r).next; t.states != [] && Returns(t) == r
  {
    var v := u.(states := u.states + [r]);
    if q[0].Scalar? {
      IndentRestored(v, c.bestIndent, true, false);
    }
  }

  /** The state in which the value of a key is due. */
  function ValueState(simple: bool, flow: bool): State {
    if flow then if simple then EFlowMappingSimpleValue else EFlowMappingValue
    else if simple then EBlockMappingSimpleValue else EBlockMappingValue
  }

  lemma {:induction false} FlowKeyOpenStyle(c: Settings, s: EState, q: seq<Event>)
    requires q != [] && !q[0].MappingEnd? && s.states != [] && FlowMappingKey(c, s, q, true).Accepted?
    ensures var t := FlowMappingKey(c, s, q, true).next;
            t.states != [] && Returns(t) == ValueState(c.choices.simpleKey(q) && !c.canonical, true)
  {
    KeyReturns(c, EnterFlow(c, s, true), q, ValueState(c.choices.simpleKey(q) && !c.canonical, true));
  }

  lemma {:induction false} FlowKeyStyle(c: Settings, s: EState, q: seq<Event>)
    requires q != [] && !q[0].MappingEnd? && s.states != [] && FlowMappingKey(c, s, q, false).Accepted?
    ensures var t := FlowMappingKey(c, s, q, false).next;
            t.states != [] && Returns(t) == ValueState(c.choices.simpleKey(q) && !c.canonical, true)
  {
    KeyReturns(c, s, q, ValueState(c.choices.simpleKey(q) && !c.canonical, true));
  }

  lemma {:induction false} BlockKeyOpenStyle(c: Settings, s: EState, q: seq<Event>)
    requires q != [] && !q[0].MappingEnd? && s.states != [] && BlockMappingKey(c, s, q, true).Accepted?
    ensures var t := BlockMappingKey(c, s, q, true).next;
            t.states != [] && Returns(t) == ValueState(c.choices.simpleKey(q), false)
  {
    KeyReturns(c, EnterBlock(c, s, true, false), q, ValueState(c.choices.simpleKey(q), false));
  }

  lemma {:induction false} BlockKeyStyle(c: Settings, s: EState, q: seq<Event>)
    requires q != [] && !q[0].MappingEnd? && s.states != [] && BlockMappingKey(c, s, q, false).Accepted?
    ensures var t := BlockMappingKey(c, s, q, false).next;
            t.states != [] && Returns(t) == ValueState(c.choices.simpleKey(q), false)
  {
    KeyReturns(c, s, q, ValueState(c.choices.simpleKey(q), false));
  }

  /** A key is a simple one exactly where the text allows it, but for flow mappings in canonical output. */
  lemma {:induction false} KeyStyle(c: Settings, s: EState, q: seq<Event>)
    requires q != [] && Inv(s) && Current(s.state) == [Key] && !q[0].MappingEnd? && StateMachine(c, s, q).Accepted?
    ensures var t, flow := StateMachine(c, s, q).next, InFlow(s.state);
            t.states != [] && Returns(t) == ValueState(c.choices.simpleKey(q) && !(c.canonical && flow), flow)
  {
    match s.state {
      case EFlowMappingFirstKey => FlowKeyOpenStyle(c, s, q);
      case EFlowMappingKey => FlowKeyStyle(c, s, q);
      case EBlockMappingFirstKey => BlockKeyOpenStyle(c, s, q);
      case EBlockMappingKey => BlockKeyStyle(c, s, q);
    }
  }

  // ---------- lookahead ----------

  /** What is held back, exactly: a document start for one event; a collection for two or three, or up to its end. */
  lemma {:induction false} HeldBack(e: Event, f: Event, g: Event, more: seq<Event>)
    ensures NeedMore([e]) <==> e.DocumentStart? || e.SequenceStart? || e.MappingStart?
    ensures NeedMore([e, f]) <==> (e.SequenceStart? || e.MappingStart?) && Delta(f) >= 0
    ensures NeedMore([e, f, g]) <==> e.MappingStart? && Delta(f) >= 0 && Delta(f) + Delta(g) >= 0
    ensures |more| > 3 ==> !NeedMore(more)
  {
    FirstLevels([e, f, g]);
    var one, two, three := [e], [e, f], [e, f, g];
    assert one[..1] == three[..1] && two[..1] == three[..1] && two[..2] == three[..2];
    assert forall n :: 1 <= n <= 1 ==> one[..n] == three[..1];
    assert forall n :: 1 <= n <= 2 ==> two[..n] == three[..n];
  }

  lemma {:induction false} FirstLevels(q: seq<Event>)
    requires |q| == 3
    ensures Level(q[..1]) == Delta(q[0]) && Level(q[..2]) == Delta(q[0]) + Delta(q[1])
    ensures Level(q[..3]) == Delta(q[0]) + Delta(q[1]) + Delta(q[2])
  {
    assert q[..1][..0] == [] && q[..2][..1] == q[..1] && q[..3][..2] == q[..2];
  }

  /** An event is emitted only when the queue tells whether it is an empty collection. */
  lemma {:induction false} EmptinessKnown(q: seq<Event>, later: seq<Event>)
    requires q != [] && !NeedMore(q)
    ensures StartsEmpty(q) <==> StartsEmpty(q + later)
  {
    if |q| == 1 {
      assert q == [q[0]];
      assert q[..1] == q && Level(q[..0]) == 0;
    }
  }

  // ---------- whole runs ----------

  /** The layout of a reachable state: its levels fit its collections, and flow style goes inward. */
  ghost predicate LaidOut(c: Plan, s: EState) {
    Inv(s) && LevelsFit(s, BestIndent(c)) && FlowsInward(Chain(s), c.canonical)
  }

  lemma {:induction false} ProcessLaysOut(c: Plan, s: EState, q: seq<Event>, n: nat)
    requires q != [] && LaidOut(c, s) && Process(At(c, n), s, q).Accepted?
    ensures LaidOut(c, Process(At(c, n), s, q).next)
  {
    StateMachineAgrees(At(c, n), s, q);
    StepLevels(At(c, n), s, q);
    StepStyle(At(c, n), s, q);
  }

  lemma {:induction false} DrainLaysOut(c: Plan, s: EState, q: seq<Event>, n: nat)
    requires LaidOut(c, s)
    ensures Drain(c, s, q, n).Drained? ==> LaidOut(c, Drain(c, s, q, n).state)
    decreases |q|
  {
    if !NeedMore(q) {
      DrainOn(c, s, q, n);
      match Process(At(c, n), s, q) {
        case Accepted(t) =>
          ProcessLaysOut(c, s, q, n);
          DrainLaysOut(c, t, q[1..], n + 1);
        case _ =>
      }
    }
  }

  lemma {:induction false} EmitAllLaysOut(c: Plan, s: EState, q: seq<Event>, n: nat, events: seq<Event>)
    requires LaidOut(c, s)
    ensures EmitAll(c, s, q, n, events).Drained? ==> LaidOut(c, EmitAll(c, s, q, n, events).state)
    decreases |events|
  {
    if events != [] {
      DrainLaysOut(c, s, q + [events[0]], n);
      match Drain(c, s, q + [events[0]], n) {
        case Drained(t, r, m) => EmitAllLaysOut(c, t, r, m, events[1..]);
        case _ =>
      }
    }
  }

  /**
   Whatever is emitted, and whatever the text layer decides: the indentation levels are those of
   the open collections, and no block collection stands inside a flow collection or in canonical
   output.
   */
  lemma {:induction false} EmitterLayout(c: Plan, events: seq<Event>)
    ensures var r := EmitAll(c, Initial(), [], 0, events); r.Drained? ==> LaidOut(c, r.state)
  {
    assert Stacked([]) == [] && FlowsOf([]) == 0;
    EmitAllLaysOut(c, Initial(), [], 0, events);
  }
}
