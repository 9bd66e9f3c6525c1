/**
 The rules of simple keys, told lexeme by lexeme: when one is allowed, which one is saved, when
 one is too old, and exactly when a token is refused.
 */
module ScannerRules {
  import opened Wrappers
  import opened TokenQueue
  import opened ScannerSpec
  import opened ScannerSound

  /** A key ends with its line, and 1024 characters after its start. */
  predicate TooOld(k: SimpleKey, m: Mark) { k.possible && (m.line > k.mark.line || m.index > k.mark.index + 1024) }

  /** Keys that are too old are given up, and it is an error to give up one that is required. */
  lemma {:induction false} OldKeysGo(s: Scan)
    ensures Stale(s).Fail? <==> exists i :: 0 <= i < |s.keys| && TooOld(s.keys[i], s.mark) && s.keys[i].required
    ensures !Stale(s).Fail? ==>
              && Stale(s).Go? && Stale(s).next == s.(keys := Stale(s).next.keys) && |Stale(s).next.keys| == |s.keys|
              && forall i :: 0 <= i < |s.keys| ==>
                   Stale(s).next.keys[i]
                   == if TooOld(s.keys[i], s.mark) then s.keys[i].(possible := false) else s.keys[i]
  {
    FreshIs(s.keys, s.mark);
  }

  lemma {:induction false} FreshIs(keys: seq<SimpleKey>, m: Mark)
    ensures FreshKeys(keys, m).None? <==> exists i :: 0 <= i < |keys| && TooOld(keys[i], m) && keys[i].required
    ensures FreshKeys(keys, m).Some? ==>
              && |FreshKeys(keys, m).value| == |keys|
              && forall i :: 0 <= i < |keys| ==>
                   FreshKeys(keys, m).value[i] == if TooOld(keys[i], m) then keys[i].(possible := false) else keys[i]
    decreases |keys|
  {
    if keys != [] {
      var init := keys[..|keys| - 1];
      FreshIs(init, m);
      if FreshKeys(init, m).None? {
        var i :| 0 <= i < |init| && TooOld(init[i], m) && init[i].required;
        assert TooOld(keys[i], m) && keys[i].required;
      } else {
        forall i | 0 <= i < |init| ensures init[i] == keys[i] {
        }
      }
    }
  }

  /** The key of the innermost flow level, still possible at the next token. */
  predicate Pending(s: Scan, x: Lexeme)
    requires s.keys != []
  {
    s.keys[|s.keys| - 1].possible && !TooOld(s.keys[|s.keys| - 1], x.start)
  }

  /** A key may start at the next token: it was allowed already, or a line has ended in block context. */
  predicate MayStart(s: Scan, x: Lexeme) { s.allowed || (s.flow == 0 && s.mark.line < x.start.line) }

  /** A key that starts at an open block's level is required: nothing else can stand there. */
  predicate MustBeKey(s: Scan, x: Lexeme) { s.flow == 0 && x.start.column in s.indents + [s.indent] }

  /** Whether a simple key may start right after lexeme `x`. */
  predicate AllowsNext(s: Scan, x: Lexeme)
    requires s.keys != []
  {
    match x.kind
    case AFlowStart => true
    case AFlowEntry => true
    case ABlockEntry => true
    case BlockScalar => true
    case AKey => s.flow == 0
    case AValue => s.flow == 0 && !Pending(s, x)
    case Plain => x.end.line < x.next.line
    case _ => false
  }

  predicate Opens(x: Lexeme) { x.kind.Quoted? || x.kind.Plain? || x.kind.AFlowStart? || x.kind.BadNode? }

  /** Why lexeme `x` is refused. */
  ghost predicate Refused(s: Scan, x: Lexeme)
    requires s.keys != []
  {
    var needed := Pending(s, x) && s.keys[|s.keys| - 1].required;
    || (exists i :: 0 <= i < |s.keys| && TooOld(s.keys[i], x.start) && s.keys[i].required)
    || (match x.kind
        case Bad => true
        case AValue => !Pending(s, x) && s.flow == 0 && !MayStart(s, x)
        case ABlockEntry => needed || (s.flow == 0 && !MayStart(s, x))
        case AKey => needed || (s.flow == 0 && !MayStart(s, x))
        case BadNode => MayStart(s, x) || !MustBeKey(s, x)
        case _ => needed && (Opens(x) ==> MayStart(s, x)))
  }

  /** The scanner standing at the next lexeme, the blocks that end before it closed. */
  lemma {:induction false} Arrives(s: Scan)
    requires Valid(s) && s.started && s.input != []
    ensures s.keys != [] && (Approach(s).Go? || Approach(s).Fail?)
    ensures var x := s.input[0];
            Approach(s).Fail? <==> exists i :: 0 <= i < |s.keys| && TooOld(s.keys[i], x.start) && s.keys[i].required
    ensures Approach(s).Go? ==> var (r, x) := (Approach(s).next, s.input[0]);
              && Sound(r) && r.started && r.eof == s.eof && r.input == s.input && r.mark == x.start && r.flow == s.flow
              && r.allowed == MayStart(s, x) && (KeyRequired(r) <==> MustBeKey(s, x)) && |r.keys| == |s.keys|
              && (forall i :: 0 <= i < |s.keys| ==>
                    r.keys[i] == if TooOld(s.keys[i], x.start) then s.keys[i].(possible := false) else s.keys[i])
  {
    ApproachKeeps(s);
    ToNextKeeps(s);
    OldKeysGo(ToNextToken(s));
    var q := ToNextToken(s);
    if Stale(q).Go? {
      UnrollKeeps(Stale(q).next, q.mark.column);
    }
  }

  /** What a fetch that succeeds leaves: the flow level, whether a key may start next, and the key saved or given up. */
  ghost predicate Leaves(s: Scan, x: Lexeme, f: Scan)
    requires s.keys != []
  {
    && f.flow == s.flow + (if x.kind.AFlowStart? then 1 else if x.kind.AFlowEnd? && s.flow > 0 then -1 else 0)
    && (f.allowed <==> AllowsNext(s, x))
    && |f.keys| == f.flow + 1
    && (Opens(x) && MayStart(s, x) ==>
          var k := f.keys[s.flow];
          k.possible && (k.required <==> MustBeKey(s, x)) && k.mark == x.start
          && 0 <= k.number < |f.made| && f.made[k.number].start == x.start)
    && (!Opens(x) ==> !f.keys[f.flow].possible || (x.kind.AFlowEnd? && s.flow > 0))
    && (x.kind.AFlowStart? ==> !f.keys[f.flow].possible)
  }

  /** `q` is the scanner at lexeme `x`, got to from `s`. */
  ghost predicate At(s: Scan, q: Scan, x: Lexeme)
    requires s.keys != []
  {
    && AtLexeme(q, x) && q.flow == s.flow && |q.keys| == |s.keys| == s.flow + 1
    && q.allowed == MayStart(s, x) && (KeyRequired(q) <==> MustBeKey(s, x))
    && (q.keys[q.flow].possible <==> Pending(s, x)) && q.keys[q.flow].required == s.keys[s.flow].required
    && !exists i :: 0 <= i < |s.keys| && TooOld(s.keys[i], x.start) && s.keys[i].required
  }

  ghost predicate Obeys(s: Scan, x: Lexeme, o: Outcome)
    requires s.keys != []
  {
    (o.Fail? <==> Refused(s, x)) && (o.Go? ==> Leaves(s, x, o.next))
  }

  lemma {:induction false} DropRules(s: Scan, q: Scan, x: Lexeme)
    requires s.keys != [] && At(s, q, x) && (x.kind.AFlowEnd? || x.kind.AFlowEntry? || x.kind.BlockScalar?)
    ensures Obeys(s, x, Dispatch(q, x))
  {
  }

  lemma {:induction false} EntryRules(s: Scan, q: Scan, x: Lexeme)
    requires s.keys != [] && At(s, q, x) && (x.kind.ABlockEntry? || x.kind.AKey?)
    ensures Obeys(s, x, Dispatch(q, x))
  {
    var kind := if x.kind.ABlockEntry? then BlockSequenceStart else BlockMappingStart;
    var rolled := if q.flow == 0 then Roll(q, q.mark.column, -1, kind, q.mark) else q;
    assert rolled.keys == q.keys && rolled.flow == q.flow;
  }

  lemma {:induction false} ValueRules(s: Scan, q: Scan, x: Lexeme)
    requires s.keys != [] && At(s, q, x) && x.kind.AValue?
    ensures Obeys(s, x, Dispatch(q, x))
  {
    assert KeyOk(q.keys[q.flow], q.made, q.parsed, q.mark);
    var k := q.keys[q.flow];
    if k.possible {
      var c := ConfirmKey(q, k);
      assert c.flow == q.flow && |c.keys| == |q.keys| && !c.keys[q.flow].possible && !c.allowed;
    } else {
      var rolled := if q.flow == 0 then Roll(q, q.mark.column, -1, BlockMappingStart, q.mark) else q;
      assert rolled.keys == q.keys && rolled.flow == q.flow;
    }
  }

  lemma {:induction false} ResetRules(s: Scan, q: Scan, x: Lexeme)
    requires s.keys != [] && At(s, q, x) && (x.kind.ADirective? || x.kind.ADocumentIndicator?)
    ensures Obeys(s, x, Dispatch(q, x))
  {
    UnrollKeeps(q, -1);
  }

  lemma {:induction false} NodeRules(s: Scan, q: Scan, x: Lexeme)
    requires s.keys != [] && At(s, q, x) && Opens(x)
    ensures Obeys(s, x, Dispatch(q, x))
  {
    SavePanics(q);
    if SaveKey(q).Go? && !x.kind.BadNode? {
      SavedIs(q);
      assert (q.made + [Token(FlowStart, x.start, x.end)])[|q.made|].start == x.start;
    }
  }

  lemma {:induction false} SavedIs(q: Scan)
    requires q.keys != [] && SaveKey(q).Go?
    ensures var r := SaveKey(q).next;
            && r == q.(keys := r.keys) && |r.keys| == |q.keys|
            && (if q.allowed then r.keys[|q.keys| - 1] == SimpleKey(true, KeyRequired(q), |q.made|, q.mark)
                else r.keys == q.keys)
  {
  }

  lemma {:induction false} DispatchRules(s: Scan, r: Scan, x: Lexeme)
    requires Valid(s) && s.started && s.input != [] && x == s.input[0] && Approach(s) == Go(r)
    ensures s.keys != [] && Obeys(s, x, Dispatch(r.(input := s.input[1..]), x))
  {
    Arrives(s);
    var q := r.(input := s.input[1..]);
    assert At(s, q, x);
    match x.kind
    case ADirective => ResetRules(s, q, x);
    case ADocumentIndicator => ResetRules(s, q, x);
    case AFlowEnd => DropRules(s, q, x);
    case AFlowEntry => DropRules(s, q, x);
    case BlockScalar => DropRules(s, q, x);
    case ABlockEntry => EntryRules(s, q, x);
    case AKey => EntryRules(s, q, x);
    case AValue => ValueRules(s, q, x);
    case Bad =>
    case _ => NodeRules(s, q, x);
  }

  /** Exactly when a lexeme is refused, and what one that is taken leaves. */
  lemma {:induction false} FetchRules(s: Scan)
    requires Valid(s) && s.started && s.input != []
    ensures s.keys != []
    ensures FetchNext(s).Fail? <==> Refused(s, s.input[0])
    ensures FetchNext(s).Go? ==> Leaves(s, s.input[0], FetchNext(s).next)
  {
    Arrives(s);
    if Approach(s).Go? {
      DispatchRules(s, Approach(s).next, s.input[0]);
    }
  }

  // ---------- the tokens a lexeme adds ----------

  function Ends(n: nat, m: Mark): seq<Token> { if n == 0 then [] else Ends(n - 1, m) + [Token(BlockEnd, m, m)] }

  /** How many open levels are deeper than `column`. */
  function Deeper(indents: seq<int>, indent: int, column: int): nat
    decreases |indents|
  {
    if indent <= column || indents == [] then 0
    else 1 + Deeper(indents[..|indents| - 1], indents[|indents| - 1], column)
  }

  lemma {:induction false} EndsMore(n: nat, m: Mark)
    ensures Ends(n + 1, m) == [Token(BlockEnd, m, m)] + Ends(n, m)
  {
    if n > 0 {
      EndsMore(n - 1, m);
      assert Ends(n + 1, m) == ([Token(BlockEnd, m, m)] + Ends(n - 1, m)) + [Token(BlockEnd, m, m)];
    }
  }

  /** Closing blocks queues one BLOCK-END for each level deeper than the column, and nothing else. */
  lemma {:induction false} UnrollMakes(s: Scan, column: int)
    requires Unroll(s, column).Go?
    ensures Unroll(s, column).next.made
            == s.made + Ends(if s.flow > 0 then 0 else Deeper(s.indents, s.indent, column), s.mark)
    decreases |s.indents|
  {
    if s.flow == 0 && s.indent > column {
      var n, t := |s.indents| - 1, Token(BlockEnd, s.mark, s.mark);
      var u := s.(made := s.made + [t], indent := s.indents[n], indents := s.indents[..n]);
      UnrollMakes(u, column);
      EndsMore(Deeper(u.indents, u.indent, column), s.mark);
      assert s.made + [t] + Ends(Deeper(u.indents, u.indent, column), s.mark)
             == s.made + ([t] + Ends(Deeper(u.indents, u.indent, column), s.mark));
    }
  }

  /** A block starts at `x` if it stands deeper than the innermost one. */
  function Starting(q: Scan, x: Lexeme, kind: Kind): seq<Token> {
    if q.flow == 0 && q.indent < x.start.column then [Token(kind, x.start, x.start)] else []
  }

  /** The queue after lexeme `x`, `q` standing at it. */
  ghost predicate Makes(q: Scan, x: Lexeme, made: seq<Token>)
    requires q.keys != []
  {
    var k := q.keys[|q.keys| - 1];
    match x.kind
    case ABlockEntry => made == q.made + Starting(q, x, BlockSequenceStart) + [Token(BlockEntry, x.start, x.end)]
    case AKey => made == q.made + Starting(q, x, BlockMappingStart) + [Token(Key, x.start, x.end)]
    case AValue =>
      if k.possible then
        0 <= k.number <= |q.made|
        && made == q.made[..k.number] + KeyTokens(q, k) + q.made[k.number..] + [Token(Value, x.start, x.end)]
      else made == q.made + Starting(q, x, BlockMappingStart) + [Token(Value, x.start, x.end)]
    case ADirective => made == q.made + Closing(q) + [Token(Directive, x.start, x.end)]
    case ADocumentIndicator => made == q.made + Closing(q) + [Token(DocumentIndicator, x.start, x.end)]
    case AFlowStart => made == q.made + [Token(FlowStart, x.start, x.end)]
    case AFlowEnd => made == q.made + [Token(FlowEnd, x.start, x.end)]
    case AFlowEntry => made == q.made + [Token(FlowEntry, x.start, x.end)]
    case _ => made == q.made + [Token(NodePart, x.start, x.end)]
  }

  /** Every open block closed, outside flow collections. */
  function Closing(q: Scan): seq<Token> {
    Ends(if q.flow > 0 then 0 else Deeper(q.indents, q.indent, -1), q.mark)
  }

  lemma {:induction false} DispatchMakes(q: Scan, x: Lexeme)
    requires AtLexeme(q, x) && Dispatch(q, x).Go?
    ensures q.keys != [] && Makes(q, x, Dispatch(q, x).next.made)
  {
    match x.kind
    case ADirective => UnrollMakes(q, -1);
    case ADocumentIndicator => UnrollMakes(q, -1);
    case ABlockEntry => RollMakes(q, x, BlockSequenceStart);
    case AKey => RollMakes(q, x, BlockMappingStart);
    case AValue =>
      RollMakes(q, x, BlockMappingStart);
      if q.keys[|q.keys| - 1].possible {
        KeyLandsBeforeItsToken(q);
      }
    case _ =>
  }

  lemma {:induction false} RollMakes(q: Scan, x: Lexeme, kind: Kind)
    requires AtLexeme(q, x)
    ensures var r := if q.flow == 0 then Roll(q, q.mark.column, -1, kind, q.mark) else q;
            r.made == q.made + Starting(q, x, kind) && r.keys == q.keys
  {
    assert q.made + [] == q.made;
  }

  /** The queue a fetch leaves: the blocks that end before the next lexeme are closed, and then come its tokens. */
  lemma {:induction false} FetchMakes(s: Scan)
    requires Valid(s) && s.started && s.input != [] && FetchNext(s).Go?
    ensures Approach(s).Go? && Approach(s).next.keys != []
    ensures var x := s.input[0];
            && Approach(s).next.made
               == s.made + Ends(if s.flow > 0 then 0 else Deeper(s.indents, s.indent, x.start.column), x.start)
            && Makes(Approach(s).next, x, FetchNext(s).next.made)
  {
    Arrives(s);
    ApproachKeeps(s);
    var r := Approach(s).next;
    UnrollMakes(Stale(ToNextToken(s)).next, s.input[0].start.column);
    DispatchMakes(r.(input := s.input[1..]), s.input[0]);
  }
}
