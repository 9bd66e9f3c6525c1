/** What the emitter leaves to the text layer: which contents are acceptable, and which sequences are not indented. */
module EmitterChoices {
  import opened Wrappers
  import opened G = EventGrammar
  import opened EmitterSpec
  import opened EmitterSound
  import opened EmitterLevels

  // ---------- sequences without indentation ----------

  /** The innermost open collection expects a key or a value. */
  ghost predicate InMapping(slots: seq<Slot>) { slots != [] && !slots[|slots| - 1].Item? }

  lemma {:induction false} ContextIs(states: seq<State>)
    requires DocumentStack(states)
    ensures MappingContext(states) <==> InMapping(Stacked(states))
  {
    var rest, last := states[..|states| - 1], states[|states| - 1];
    if |states| == 1 {
      assert rest == [] && Stacked(states) == [];
    } else {
      assert IsReturnState(last) && |Pushed(last)| == 1;
      assert Stacked(states)[|Stacked(states)| - 1] == Pushed(last)[0];
    }
  }

  /**
   Below the root a block sequence stands at its parent's level exactly when the grammar has it
   as the key or the value of a mapping and the text layer asks for it; one step in otherwise.
   */
  lemma {:induction false} IndentlessIs(c: Settings, s: EState, q: seq<Event>)
    requires q != [] && Inv(s) && s.state.EBlockSequenceFirstItem? && !q[0].SequenceEnd?
    requires StateMachine(c, s, q).Accepted? && s.indent >= 0 && c.bestIndent > 0
    ensures Position(s) == Expect(Stacked(s.states) + [Item])
    ensures var t := StateMachine(c, s, q).next;
            && t.indents == s.indents + [s.indent]
            && t.indent == s.indent
                           + if InMapping(Stacked(s.states)) && c.choices.indentless(q) then 0 else c.bestIndent
  {
    ContextIs(s.states);
    var u := EnterBlock(c, s, true, MappingContext(s.states) && c.choices.indentless(q));
    NodeLevels(c, u, q, EBlockSequenceItem);
    LevelsSame(u, StateMachine(c, s, q).next);
  }

  lemma {:induction false} LevelsSame(s: EState, t: EState)
    requires Levels(s) == Levels(t)
    ensures s.indents == t.indents && s.indent == t.indent
  {
    var n := |s.indents|;
    assert Levels(s)[..n] == s.indents && Levels(t)[..n] == t.indents;
    assert Levels(s)[n] == s.indent && Levels(t)[n] == t.indent;
  }

  /** A step of 2 to 9 columns is honoured at every event; any other is taken to be 2. */
  lemma AskedIndent(c: Plan, n: nat)
    ensures At(c, n).bestIndent == if c.askedIndent in {2, 3, 4, 5, 6, 7, 8, 9} then c.askedIndent else 2
  {
  }

  // ---------- contents ----------

  /** The first `n` of `events` are acceptable, each by what is decided when it is its turn. */
  ghost predicate Acceptable(c: Plan, events: seq<Event>, from: nat, n: nat)
    requires n <= |events|
  {
    forall i :: from <= i < n ==> c.choices(i).contentOk(events[i])
  }

  lemma {:induction false} DrainTaken(c: Plan, s: EState, q: seq<Event>, emitted: nat, events: seq<Event>)
    requires emitted + |q| <= |events| && q == events[emitted..emitted + |q|]
    ensures match Drain(c, s, q, emitted)
            case Drained(_, r, n) => emitted <= n && n + |r| == emitted + |q| && r == events[n..n + |r|]
                                     && Acceptable(c, events, emitted, n)
            case _ => true
    decreases |q|
  {
    if !NeedMore(q) {
      match Process(At(c, emitted), s, q) {
        case Accepted(t) =>
          assert q[1..] == events[emitted + 1..emitted + |q|];
          assert q[0] == events[emitted];
          DrainTaken(c, t, q[1..], emitted + 1, events);
        case _ =>
      }
    }
  }

  lemma {:induction false} EmitTaken(c: Plan, s: EState, q: seq<Event>, emitted: nat, more: seq<Event>,
                                     events: seq<Event>)
    requires emitted + |q| + |more| == |events|
    requires q == events[emitted..emitted + |q|] && more == events[emitted + |q|..]
    ensures match EmitAll(c, s, q, emitted, more)
            case Drained(_, r, n) => emitted <= n <= |events| && r == events[n..] && Acceptable(c, events, emitted, n)
            case _ => true
    decreases |more|
  {
    if more != [] {
      var next := q + [more[0]];
      assert next == events[emitted..emitted + |next|];
      DrainTaken(c, s, next, emitted, events);
      match Drain(c, s, next, emitted) {
        case Drained(t, r, n) =>
          assert more[1..] == events[n + |r|..];
          EmitTaken(c, t, r, n, more[1..], events);
        case _ =>
      }
    } else {
      assert q == events[emitted..];
    }
  }

  /**
   Over any run that is not rejected: every event emitted had acceptable contents, they were
   emitted in the order given, and those held back are the last ones.
   */
  lemma {:induction false} EmittedInOrder(c: Plan, events: seq<Event>)
    ensures match EmitAll(c, Initial(), [], 0, events)
            case Drained(_, held, n) => n <= |events| && held == events[n..] && Acceptable(c, events, 0, n)
            case _ => true
  {
    assert events[0..0] == [] && events[0..] == events;
    EmitTaken(c, Initial(), [], 0, events, events);
  }
}
