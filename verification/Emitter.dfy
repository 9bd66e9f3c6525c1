/**
 The emitter as an object: `Emit` appends to the event queue and drains it in place.  Each
 method does exactly what EmitterSpec says of the values of its fields.
 */
module Emitter {
  import opened Wrappers
  import opened G = EventGrammar
  import opened EmitterSpec
  import EmitterSound
  import EmitterLevels
  import Q = QuotedSpec
  import QuotedRoundTrip

  /** Whatever text is written double-quoted at this indentation reads back as it was. */
  ghost predicate ReadsBack(indent: int) {
    forall s: Q.Settings, v: seq<int>, p: Q.Place, rest: seq<int>, column: int ::
      s.indent == indent && Q.Scalars(v) && column >= 0 ==>
        Q.ScanQuoted(Q.Quoted(s, v, p) + rest, column) == Q.Done(v, rest)
  }

  class YamlEmitter {
    const plan: Plan
    var events: seq<Event>
    var head: nat
    var state: State
    var states: seq<State>
    var flowLevel: int
    var indent: int
    var indents: seq<int>
    /** The indentation at which the text of each scalar was written. */
    ghost var scalars: seq<int>

    ghost predicate Wf()
      reads this
    {
      head <= |events|
    }

    ghost function View(): EState
      reads this
    {
      EState(state, states, flowLevel, indent, indents)
    }

    ghost function Queue(): seq<Event>
      reads this
      requires Wf()
    {
      events[head..]
    }

    ghost predicate Valid()
      reads this
    {
      Wf() && EmitterSound.Inv(View()) && EmitterLevels.LevelsFit(View(), BestIndent(plan))
    }

    /** Scalars written since there were `n` of them stand at least one step in. */
    ghost predicate Inside(n: nat)
      reads this
    {
      n <= |scalars| && forall i :: n <= i < |scalars| ==> scalars[i] >= BestIndent(plan)
    }

    /** So every scalar the emitter writes double-quoted reads back. */
    lemma {:induction false} ScalarsReadBack(n: nat)
      requires Inside(n)
      ensures forall i :: n <= i < |scalars| ==> ReadsBack(scalars[i])
    {
      forall i, s: Q.Settings, v: seq<int>, p: Q.Place, rest: seq<int>, column: int |
        n <= i < |scalars| && s.indent == scalars[i] && Q.Scalars(v) && column >= 0
        ensures Q.ScanQuoted(Q.Quoted(s, v, p) + rest, column) == Q.Done(v, rest)
      {
        QuotedRoundTrip.RoundTrip(s, v, p, rest, column);
      }
    }

    constructor (plan: Plan)
      ensures Valid() && View() == EmitterSpec.Initial() && Queue() == [] && this.plan == plan && scalars == []
    {
      this.plan := plan;
      events, head, scalars := [], 0, [];
      state, states, flowLevel, indent, indents := EStreamStart, [], 0, -1, [];
      new;
      assert EmitterSound.Stacked([]) == [] && EmitterSound.FlowsOf([]) == 0;
    }

    ghost predicate Did(o: Outcome, ok: bool)
      reads this
    {
      match o
      case Accepted(t) => ok && View() == t
      case Rejected => !ok
      case Crash => false
    }

    method IncreaseIndent(flow: bool, indentless: bool)
      modifies this`indent, this`indents
      ensures View() == EmitterSpec.IncreaseIndent(old(View()), BestIndent(plan), flow, indentless)
    {
      indents := indents + [indent];
      if indent < 0 {
        indent := if flow then BestIndent(plan) else 0;
      } else if !indentless {
        indent := indent + BestIndent(plan);
      }
    }

    method PopIndent()
      requires indents != []
      modifies this`indent, this`indents
      ensures Accepted(View()) == EmitterSpec.PopIndent(old(View()))
    {
      indent := indents[|indents| - 1];
      indents := indents[..|indents| - 1];
    }

    method PopState()
      requires states != []
      modifies this`state, this`states
      ensures Accepted(View()) == EmitterSpec.PopState(old(View()))
    {
      state := states[|states| - 1];
      states := states[..|states| - 1];
    }

    method Leave()
      requires EmitterSpec.Leave(View()) != Crash
      modifies this`state, this`states, this`indent, this`indents
      ensures Accepted(View()) == EmitterSpec.Leave(old(View()))
    {
      PopIndent();
      PopState();
    }

    method EnterFlow(first: bool)
      requires Wf()
      modifies this`indent, this`indents, this`flowLevel
      ensures View() == EmitterSpec.EnterFlow(At(plan, head), old(View()), first)
    {
      if first {
        IncreaseIndent(true, false);
        flowLevel := flowLevel + 1;
      }
    }

    function StartsEmptyCollection(): (b: bool)
      reads this
      requires Wf() && Queue() != []
      ensures b <==> StartsEmpty(Queue())
    {
      && |events| - head >= 2
      && ((events[head].SequenceStart? && events[head + 1].SequenceEnd?)
          || (events[head].MappingStart? && events[head + 1].MappingEnd?))
    }

    /** The text of a scalar is written one step in, or at the first step at the root. */
    method EmitScalar()
      requires Wf() && EmitterSpec.Leave(AtScalar(At(plan, head), View())) != Crash
      modifies this`state, this`states, this`indent, this`indents, this`scalars
      ensures Accepted(View()) == EmitterSpec.Leave(AtScalar(At(plan, head), old(View())))
      ensures scalars == old(scalars) + [BestIndent(plan) + if old(indent) < 0 then 0 else old(indent)]
    {
      IncreaseIndent(true, false);
      scalars := scalars + [indent];
      Leave();
    }

    method EmitNode() returns (ok: bool)
      requires Wf() && Queue() != [] && EmitterSpec.EmitNode(At(plan, head), View(), Queue()) != Crash
      requires indent >= -1
      modifies this`state, this`states, this`indent, this`indents, this`scalars
      ensures Did(EmitterSpec.EmitNode(At(plan, head), old(View()), Queue()), ok)
      ensures scalars == old(scalars)
              + if Queue()[0].Scalar? then [BestIndent(plan) + if old(indent) < 0 then 0 else old(indent)] else []
    {
      match events[head] {
        case Alias(_) =>
          PopState();
          return true;
        case Scalar(_, _, _, _, _, _) =>
          EmitScalar();
          return true;
        case SequenceStart(_, _, _, layout) =>
          var flow := flowLevel > 0 || plan.canonical || layout == Flow || StartsEmptyCollection();
          state := if flow then EFlowSequenceFirstItem else EBlockSequenceFirstItem;
          return true;
        case MappingStart(_, _, _, layout) =>
          var flow := flowLevel > 0 || plan.canonical || layout == Flow || StartsEmptyCollection();
          state := if flow then EFlowMappingFirstKey else EBlockMappingFirstKey;
          return true;
        case _ =>
          return false;
      }
    }

    /** Emit a node and return to `next`. */
    method EmitMember(next: State) returns (ok: bool)
      requires Wf() && Queue() != [] && PushEmit(At(plan, head), View(), Queue(), next) != Crash
      requires indent >= -1
      modifies this`state, this`states, this`indent, this`indents, this`scalars
      ensures Did(PushEmit(At(plan, head), old(View()), Queue(), next), ok)
      ensures old(scalars) <= scalars && Inside(|old(scalars)|)
    {
      states := states + [next];
      ok := EmitNode();
    }

    method EmitFlowSequenceItem(first: bool) returns (ok: bool)
      requires Wf() && Queue() != [] && FlowSequenceItem(At(plan, head), View(), Queue(), first) != Crash
      requires indent >= -1
      modifies this`state, this`states, this`indent, this`indents, this`flowLevel, this`scalars
      ensures Did(FlowSequenceItem(At(plan, head), old(View()), Queue(), first), ok)
      ensures old(scalars) <= scalars && Inside(|old(scalars)|)
    {
      EnterFlow(first);
      if events[head].SequenceEnd? {
        flowLevel := flowLevel - 1;
        Leave();
        return true;
      }
      ok := EmitMember(EFlowSequenceItem);
    }

    method EmitFlowMappingKey(first: bool) returns (ok: bool)
      requires Wf() && Queue() != [] && FlowMappingKey(At(plan, head), View(), Queue(), first) != Crash
      requires indent >= -1
      modifies this`state, this`states, this`indent, this`indents, this`flowLevel, this`scalars
      ensures Did(FlowMappingKey(At(plan, head), old(View()), Queue(), first), ok)
      ensures old(scalars) <= scalars && Inside(|old(scalars)|)
    {
      EnterFlow(first);
      if events[head].MappingEnd? {
        flowLevel := flowLevel - 1;
        Leave();
        return true;
      }
      var simple := !plan.canonical && plan.choices(head).simpleKey(events[head..]);
      ok := EmitMember(if simple then EFlowMappingSimpleValue else EFlowMappingValue);
    }

    method EmitBlockSequenceItem(first: bool) returns (ok: bool)
      requires Wf() && Queue() != [] && BlockSequenceItem(At(plan, head), View(), Queue(), first) != Crash
      requires indent >= -1
      modifies this`state, this`states, this`indent, this`indents, this`scalars
      ensures Did(BlockSequenceItem(At(plan, head), old(View()), Queue(), first), ok)
      ensures old(scalars) <= scalars && Inside(|old(scalars)|)
    {
      if first {
        IncreaseIndent(false, MappingContext(states) && plan.choices(head).indentless(events[head..]));
      }
      if events[head].SequenceEnd? {
        Leave();
        return true;
      }
      ok := EmitMember(EBlockSequenceItem);
    }

    method EmitBlockMappingKey(first: bool) returns (ok: bool)
      requires Wf() && Queue() != [] && BlockMappingKey(At(plan, head), View(), Queue(), first) != Crash
      requires indent >= -1
      modifies this`state, this`states, this`indent, this`indents, this`scalars
      ensures Did(BlockMappingKey(At(plan, head), old(View()), Queue(), first), ok)
      ensures old(scalars) <= scalars && Inside(|old(scalars)|)
    {
      if first {
        IncreaseIndent(false, false);
      }
      if events[head].MappingEnd? {
        Leave();
        return true;
      }
      var simple := plan.choices(head).simpleKey(events[head..]);
      ok := EmitMember(if simple then EBlockMappingSimpleValue else EBlockMappingValue);
    }

    method EmitDocumentStart() returns (ok: bool)
      requires Wf() && Queue() != []
      modifies this`state
      ensures Did(DocumentStartOrEnd(old(View()), Queue()[0]), ok)
    {
      if events[head].DocumentStart? {
        state := EDocumentContent;
        return true;
      }
      if events[head].StreamEnd? {
        state := EEnd;
        return true;
      }
      return false;
    }

    method RunStateMachine() returns (ok: bool)
      requires Wf() && Queue() != [] && StateMachine(At(plan, head), View(), Queue()) != Crash
      requires indent >= -1
      modifies this`state, this`states, this`indent, this`indents, this`flowLevel, this`scalars
      ensures Did(StateMachine(At(plan, head), old(View()), Queue()), ok)
      ensures old(scalars) <= scalars && Inside(|old(scalars)|)
    {
      match state {
        case EStreamStart =>
          if !events[head].StreamStart? { return false; }
          indent := -1;
          state := EFirstDocumentStart;
          return true;
        case EFirstDocumentStart => ok := EmitDocumentStart();
        case EDocumentStart => ok := EmitDocumentStart();
        case EDocumentContent => ok := EmitMember(EDocumentEnd);
        case EDocumentEnd =>
          if !events[head].DocumentEnd? { return false; }
          state := EDocumentStart;
          return true;
        case EFlowSequenceFirstItem => ok := EmitFlowSequenceItem(true);
        case EFlowSequenceItem => ok := EmitFlowSequenceItem(false);
        case EFlowMappingFirstKey => ok := EmitFlowMappingKey(true);
        case EFlowMappingKey => ok := EmitFlowMappingKey(false);
        case EFlowMappingSimpleValue => ok := EmitMember(EFlowMappingKey);
        case EFlowMappingValue => ok := EmitMember(EFlowMappingKey);
        case EBlockSequenceFirstItem => ok := EmitBlockSequenceItem(true);
        case EBlockSequenceItem => ok := EmitBlockSequenceItem(false);
        case EBlockMappingFirstKey => ok := EmitBlockMappingKey(true);
        case EBlockMappingKey => ok := EmitBlockMappingKey(false);
        case EBlockMappingSimpleValue => ok := EmitMember(EBlockMappingKey);
        case EBlockMappingValue => ok := EmitMember(EBlockMappingKey);
        case EEnd => ok := false;
      }
    }

    method NeedMoreEvents() returns (more: bool)
      requires Wf()
      ensures more <==> NeedMore(Queue())
    {
      if head == |events| { return true; }
      var accumulate := 0;
      match events[head] {
        case DocumentStart(_, _, _) => accumulate := 1;
        case SequenceStart(_, _, _, _) => accumulate := 2;
        case MappingStart(_, _, _, _) => accumulate := 3;
        case _ => return false;
      }
      if |events| - head > accumulate { return false; }
      var level := 0;
      var q := events[head..];
      for i := head to |events|
        invariant level == Level(q[..i - head])
        invariant forall n :: 1 <= n <= i - head ==> Level(q[..n]) != 0
      {
        assert q[..i - head + 1][..i - head] == q[..i - head];
        level := level + Delta(events[i]);
        if level == 0 {
          assert Level(q[..i - head + 1]) == 0;
          return false;
        }
      }
      return true;
    }

    /** Analyse and emit the event at the head of the queue. */
    method ProcessHead() returns (ok: bool)
      requires Valid() && Queue() != []
      modifies this
      ensures Wf() && events == old(events)
      ensures Did(Process(At(plan, old(head)), old(View()), old(Queue())), ok)
      ensures ok ==> Valid() && Queue() == old(Queue())[1..] && head == old(head) + 1
      ensures old(scalars) <= scalars && Inside(|old(scalars)|)
    {
      var c := At(plan, head);
      EmitterSound.StateMachineAgrees(c, View(), Queue());
      EmitterLevels.IndentBound(View(), BestIndent(plan));
      if StateMachine(c, View(), Queue()).Accepted? {
        EmitterLevels.StepLevels(c, View(), Queue());
      }
      if !plan.choices(head).contentOk(events[head]) { return false; }
      ok := RunStateMachine();
      if ok {
        head := head + 1;
      }
    }

    /** Emit one event; `false` reports an error, after which the emitter is not used again. */
    method Emit(event: Event) returns (ok: bool)
      requires Valid()
      modifies this
      ensures match Drain(plan, old(View()), old(Queue()) + [event], old(head))
              case Drained(t, q, n) => ok && Valid() && View() == t && Queue() == q && head == n
              case DrainRejected => !ok
              case DrainCrash => false
      ensures old(scalars) <= scalars && Inside(|old(scalars)|)
    {
      events := events + [event];
      ghost var goal := Drain(plan, View(), Queue(), head);
      assert Queue() == old(Queue()) + [event];
      var more := NeedMoreEvents();
      while !more
        invariant Valid() && (more <==> NeedMore(Queue()))
        invariant goal == Drain(plan, View(), Queue(), head)
        invariant old(scalars) <= scalars && Inside(|old(scalars)|)
        decreases |events| - head
      {
        ok := ProcessHead();
        if !ok { return; }
        more := NeedMoreEvents();
      }
      return true;
    }
  }
}
