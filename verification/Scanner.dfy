/**
 The scanner as an object over the array-backed token queue, every method proved against the step
 it takes on values.
 */
module Scanner {
  import opened Wrappers
  import opened TokenQueue
  import opened ScannerSpec
  import opened ScannerSound

  datatype Status = Fine | Failed | Panicked

  lemma {:induction false} InsertShift(taken: seq<Token>, q: seq<Token>, pos: int, t: Token)
    requires pos <= |q|
    ensures taken + InsertAt(q, pos, t) == InsertAt(taken + q, if pos < 0 then -1 else |taken| + pos, t)
  {
  }

  lemma {:induction false} FreshNone(keys: seq<SimpleKey>, mark: Mark, i: nat)
    requires i <= |keys| && FreshKeys(keys[..i], mark) == None
    ensures FreshKeys(keys, mark) == None
    decreases |keys|
  {
    if i == |keys| {
      assert keys[..i] == keys;
    } else {
      assert keys[..|keys| - 1][..i] == keys[..i];
      FreshNone(keys[..|keys| - 1], mark, i);
    }
  }

  class TokenScanner {
    var input: seq<Lexeme>
    const eof: Mark
    var mark: Mark
    var started: bool
    const tokens: Queue<Token>
    var tokensParsed: nat
    var simpleKeys: seq<SimpleKey>
    var simpleKeyAllowed: bool
    var flowLevel: nat
    var indent: int
    var indents: seq<int>
    /** The tokens the parser has taken. */
    ghost var taken: seq<Token>

    ghost predicate Intact()
      reads this, tokens
    {
      tokens.Valid() && |taken| == tokensParsed
    }

    ghost function View(): Scan
      requires Intact()
      reads this, tokens, tokens.buffer
    {
      Scan(input, eof, mark, started, taken + tokens.Contents(), tokensParsed,
           simpleKeys, simpleKeyAllowed, flowLevel, indent, indents)
    }

    /** The status and state are those `o` promises. */
    ghost predicate Did(o: Outcome, status: Status)
      requires Intact()
      reads this, tokens, tokens.buffer
    {
      match o
      case Go(s) => status == Fine && View() == s
      case Fail => status == Failed
      case Panic => status == Panicked
    }

    constructor (input: seq<Lexeme>, eof: Mark)
      ensures Intact() && View() == Initial(input, eof) && fresh(tokens) && fresh(tokens.buffer)
    {
      this.input, this.eof, mark, started := input, eof, Mark(0, 0, 0), false;
      tokens := new Queue();
      tokensParsed, simpleKeys, simpleKeyAllowed := 0, [], false;
      flowLevel, indent, indents, taken := 0, -1, [], [];
    }

    /** Put `t` in the queue at `pos`, or at its end when `pos` is negative. */
    method InsertToken(pos: int, t: Token)
      requires Intact() && pos <= |tokens.Contents()|
      modifies tokens, tokens.buffer
      ensures Intact() && (tokens.buffer == old(tokens.buffer) || fresh(tokens.buffer))
      ensures View() == Insert(old(View()), if pos < 0 then -1 else tokensParsed + pos, t)
    {
      InsertShift(taken, tokens.Contents(), pos, t);
      tokens.Insert(pos, t);
    }

    method Consume(kind: Kind, x: Lexeme)
      requires Intact()
      modifies this, tokens, tokens.buffer
      ensures Intact() && (tokens.buffer == old(tokens.buffer) || fresh(tokens.buffer))
      ensures View() == ScannerSpec.Consume(old(View()), kind, x)
    {
      InsertToken(-1, Token(kind, x.start, x.end));
      mark := x.next;
    }

    // ---------- simple keys ----------

    method StaleSimpleKeys() returns (status: Status)
      requires Intact()
      modifies this
      ensures Intact() && Did(Stale(old(View())), status)
    {
      ghost var keys := simpleKeys;
      var i := 0;
      assert keys[..0] == [];
      while i < |simpleKeys|
        modifies this`simpleKeys
        invariant |simpleKeys| == |keys| && i <= |keys| && simpleKeys[i..] == keys[i..]
        invariant FreshKeys(keys[..i], mark) == Some(simpleKeys[..i])
      {
        var k := simpleKeys[i];
        ghost var before := simpleKeys;
        assert k == simpleKeys[i..][0] == keys[i];
        assert keys[..i + 1][..i] == keys[..i];
        if k.possible && (k.mark.line < mark.line || k.mark.index + 1024 < mark.index) {
          if k.required {
            FreshNone(keys, mark, i + 1);
            return Failed;
          }
          simpleKeys := simpleKeys[i := k.(possible := false)];
        }
        assert FreshKeys(keys[..i + 1], mark) == Some(simpleKeys[..i] + [simpleKeys[i]]);
        assert simpleKeys[..i] + [simpleKeys[i]] == simpleKeys[..i + 1];
        assert simpleKeys[i + 1..] == before[i..][1..] == keys[i..][1..] == keys[i + 1..];
        i := i + 1;
      }
      assert keys[..i] == keys && simpleKeys[..i] == simpleKeys;
      return Fine;
    }

    method RemoveSimpleKey() returns (status: Status)
      requires Intact()
      modifies this
      ensures Intact() && Did(RemoveKey(old(View())), status)
    {
      if simpleKeys == [] { return Panicked; }
      var i := |simpleKeys| - 1;
      if simpleKeys[i].possible {
        if simpleKeys[i].required { return Failed; }
      }
      simpleKeys := simpleKeys[i := simpleKeys[i].(possible := false)];
      return Fine;
    }

    method SaveSimpleKey() returns (status: Status)
      requires Intact()
      modifies this
      ensures Intact() && Did(SaveKey(old(View())), status)
    {
      var required := flowLevel == 0 && indent == mark.column;
      if required && !simpleKeyAllowed { return Panicked; }
      if simpleKeyAllowed {
        var key := SimpleKey(true, required, tokensParsed + (tokens.len - tokens.head), mark);
        status := RemoveSimpleKey();
        if status != Fine { return; }
        simpleKeys := simpleKeys[|simpleKeys| - 1 := key];
        assert simpleKeys == simpleKeys[..|simpleKeys| - 1] + [key];
      }
      return Fine;
    }

    method IncreaseFlowLevel()
      requires Intact()
      modifies this
      ensures Intact() && View() == IncreaseFlow(old(View()))
    {
      simpleKeys := simpleKeys + [NO_KEY];
      flowLevel := flowLevel + 1;
    }

    method DecreaseFlowLevel()
      requires Intact() && |simpleKeys| == flowLevel + 1
      modifies this
      ensures Intact() && View() == DecreaseFlow(old(View()))
    {
      if flowLevel > 0 {
        flowLevel := flowLevel - 1;
        simpleKeys := simpleKeys[..|simpleKeys| - 1];
      }
    }

    // ---------- indentation ----------

    method RollIndent(column: int, number: int, kind: Kind, at: Mark)
      requires Intact() && number <= tokensParsed + |tokens.Contents()| && (number < 0 || tokensParsed <= number)
      modifies this, tokens, tokens.buffer
      ensures Intact() && (tokens.buffer == old(tokens.buffer) || fresh(tokens.buffer))
      ensures View() == Roll(old(View()), column, number, kind, at)
    {
      if flowLevel > 0 { return; }
      if indent < column {
        indents := indents + [indent];
        indent := column;
        var pos := if number > -1 then number - tokensParsed else number;
        InsertToken(pos, Token(kind, at, at));
      }
    }

    method UnrollIndent(column: int) returns (status: Status)
      requires Intact()
      modifies this, tokens, tokens.buffer
      ensures Intact() && (tokens.buffer == old(tokens.buffer) || fresh(tokens.buffer))
      ensures Did(Unroll(old(View()), column), status)
    {
      if flowLevel > 0 { return Fine; }
      while indent > column
        invariant Intact() && (tokens.buffer == old(tokens.buffer) || fresh(tokens.buffer))
        invariant flowLevel == 0 && Unroll(View(), column) == Unroll(old(View()), column)
        decreases |indents|
      {
        if indents == [] { return Panicked; }
        InsertToken(-1, Token(BlockEnd, mark, mark));
        indent := indents[|indents| - 1];
        indents := indents[..|indents| - 1];
      }
      return Fine;
    }

    // ---------- fetchers ----------

    method FetchStreamStart()
      requires Intact()
      modifies this, tokens, tokens.buffer
      ensures Intact() && (tokens.buffer == old(tokens.buffer) || fresh(tokens.buffer))
      ensures View() == ScannerSpec.FetchStreamStart(old(View()))
    {
      indent := -1;
      simpleKeys := simpleKeys + [NO_KEY];
      simpleKeyAllowed := true;
      started := true;
      InsertToken(-1, Token(StreamStart, mark, mark));
    }

    method Reset() returns (status: Status)
      requires Intact()
      modifies this, tokens, tokens.buffer
      ensures Intact() && (tokens.buffer == old(tokens.buffer) || fresh(tokens.buffer))
      ensures Did(ScannerSpec.Reset(old(View())), status)
    {
      status := UnrollIndent(-1);
      if status != Fine { return; }
      status := RemoveSimpleKey();
      if status != Fine { return; }
      simpleKeyAllowed := false;
    }

    method FetchStreamEnd() returns (status: Status)
      requires Intact()
      modifies this, tokens, tokens.buffer
      ensures Intact() && (tokens.buffer == old(tokens.buffer) || fresh(tokens.buffer))
      ensures Did(ScannerSpec.FetchStreamEnd(old(View())), status)
    {
      if mark.column != 0 {
        mark := mark.(column := 0, line := mark.line + 1);
      }
      status := Reset();
      if status != Fine { return; }
      InsertToken(-1, Token(StreamEnd, mark, mark));
    }

    method FetchReset(kind: Kind, x: Lexeme) returns (status: Status)
      requires Intact()
      modifies this, tokens, tokens.buffer
      ensures Intact() && (tokens.buffer == old(tokens.buffer) || fresh(tokens.buffer))
      ensures Did(ScannerSpec.FetchReset(old(View()), kind, x), status)
    {
      status := Reset();
      if status != Fine { return; }
      Consume(kind, x);
    }

    method FetchFlowCollectionStart(x: Lexeme) returns (status: Status)
      requires Intact()
      modifies this, tokens, tokens.buffer
      ensures Intact() && (tokens.buffer == old(tokens.buffer) || fresh(tokens.buffer))
      ensures Did(FetchFlowStart(old(View()), x), status)
    {
      status := SaveSimpleKey();
      if status != Fine { return; }
      IncreaseFlowLevel();
      simpleKeyAllowed := true;
      Consume(FlowStart, x);
    }

    method FetchFlowCollectionEnd(x: Lexeme) returns (status: Status)
      requires Intact() && |simpleKeys| == flowLevel + 1
      modifies this, tokens, tokens.buffer
      ensures Intact() && (tokens.buffer == old(tokens.buffer) || fresh(tokens.buffer))
      ensures Did(FetchFlowEnd(old(View()), x), status)
    {
      status := RemoveSimpleKey();
      if status != Fine { return; }
      DecreaseFlowLevel();
      simpleKeyAllowed := false;
      Consume(FlowEnd, x);
    }

    method FetchFlowEntry(x: Lexeme) returns (status: Status)
      requires Intact()
      modifies this, tokens, tokens.buffer
      ensures Intact() && (tokens.buffer == old(tokens.buffer) || fresh(tokens.buffer))
      ensures Did(ScannerSpec.FetchFlowEntry(old(View()), x), status)
    {
      status := RemoveSimpleKey();
      if status != Fine { return; }
      simpleKeyAllowed := true;
      Consume(FlowEntry, x);
    }

    method FetchBlockEntry(x: Lexeme) returns (status: Status)
      requires Intact()
      modifies this, tokens, tokens.buffer
      ensures Intact() && (tokens.buffer == old(tokens.buffer) || fresh(tokens.buffer))
      ensures Did(ScannerSpec.FetchBlockEntry(old(View()), x), status)
    {
      if flowLevel == 0 {
        if !simpleKeyAllowed { return Failed; }
        RollIndent(mark.column, -1, BlockSequenceStart, mark);
      }
      status := RemoveSimpleKey();
      if status != Fine { return; }
      simpleKeyAllowed := true;
      Consume(BlockEntry, x);
    }

    method FetchKey(x: Lexeme) returns (status: Status)
      requires Intact()
      modifies this, tokens, tokens.buffer
      ensures Intact() && (tokens.buffer == old(tokens.buffer) || fresh(tokens.buffer))
      ensures Did(ScannerSpec.FetchKey(old(View()), x), status)
    {
      if flowLevel == 0 {
        if !simpleKeyAllowed { return Failed; }
        RollIndent(mark.column, -1, BlockMappingStart, mark);
      }
      status := RemoveSimpleKey();
      if status != Fine { return; }
      simpleKeyAllowed := flowLevel == 0;
      Consume(Key, x);
    }

    /** The found simple key gets its KEY, and BLOCK-MAPPING-START, in front of tokens already queued. */
    method ConfirmSimpleKey(k: SimpleKey)
      requires Intact() && simpleKeys != [] && k == simpleKeys[|simpleKeys| - 1]
      requires tokensParsed <= k.number <= tokensParsed + |tokens.Contents()|
      modifies this, tokens, tokens.buffer
      ensures Intact() && (tokens.buffer == old(tokens.buffer) || fresh(tokens.buffer))
      ensures View() == ConfirmKey(old(View()), k)
    {
      ghost var before := View();
      InsertToken(k.number - tokensParsed, Token(Key, k.mark, k.mark));
      assert View() == Insert(before, k.number, Token(Key, k.mark, k.mark));
      assert |View().made| == tokensParsed + |tokens.Contents()|;
      RollIndent(k.mark.column, k.number, BlockMappingStart, k.mark);
      simpleKeys := simpleKeys[|simpleKeys| - 1 := k.(possible := false)];
      simpleKeyAllowed := false;
    }

    method FetchValue(x: Lexeme) returns (status: Status)
      requires Intact() && Sound(View()) && started
      modifies this, tokens, tokens.buffer
      ensures Intact() && (tokens.buffer == old(tokens.buffer) || fresh(tokens.buffer))
      ensures Did(ScannerSpec.FetchValue(old(View()), x), status)
    {
      var k := simpleKeys[|simpleKeys| - 1];
      if k.possible {
        assert KeyOk(k, View().made, tokensParsed, mark);
        ConfirmSimpleKey(k);
        Consume(Value, x);
        status := Fine;
      } else {
        status := FetchComplexValue(x);
      }
    }

    /** A ':' that follows no simple key. */
    method FetchComplexValue(x: Lexeme) returns (status: Status)
      requires Intact() && simpleKeys != [] && !simpleKeys[|simpleKeys| - 1].possible
      modifies this, tokens, tokens.buffer
      ensures Intact() && (tokens.buffer == old(tokens.buffer) || fresh(tokens.buffer))
      ensures Did(ScannerSpec.FetchValue(old(View()), x), status)
    {
      if flowLevel == 0 {
        if !simpleKeyAllowed { return Failed; }
        RollIndent(mark.column, -1, BlockMappingStart, mark);
      }
      simpleKeyAllowed := flowLevel == 0;
      Consume(Value, x);
      status := Fine;
    }

    method FetchNode(x: Lexeme) returns (status: Status)
      requires Intact()
      modifies this, tokens, tokens.buffer
      ensures Intact() && (tokens.buffer == old(tokens.buffer) || fresh(tokens.buffer))
      ensures Did(ScannerSpec.FetchNode(old(View()), x), status)
    {
      status := SaveSimpleKey();
      if status != Fine { return; }
      simpleKeyAllowed := false;
      if x.kind.Plain? && x.end.line < x.next.line {
        simpleKeyAllowed := true;
      }
      Consume(NodePart, x);
    }

    method FetchBadNode() returns (status: Status)
      requires Intact()
      modifies this, tokens, tokens.buffer
      ensures Intact() && (tokens.buffer == old(tokens.buffer) || fresh(tokens.buffer))
      ensures Did(ScannerSpec.FetchBadNode(old(View())), status)
    {
      status := SaveSimpleKey();
      if status == Fine { status := Failed; }
    }

    method FetchBlockScalar(x: Lexeme) returns (status: Status)
      requires Intact()
      modifies this, tokens, tokens.buffer
      ensures Intact() && (tokens.buffer == old(tokens.buffer) || fresh(tokens.buffer))
      ensures Did(ScannerSpec.FetchBlockScalar(old(View()), x), status)
    {
      status := RemoveSimpleKey();
      if status != Fine { return; }
      simpleKeyAllowed := true;
      Consume(NodePart, x);
    }

    method Dispatch(x: Lexeme) returns (status: Status)
      requires Intact() && Sound(View()) && started
      modifies this, tokens, tokens.buffer
      ensures Intact() && (tokens.buffer == old(tokens.buffer) || fresh(tokens.buffer))
      ensures Did(ScannerSpec.Dispatch(old(View()), x), status)
    {
      match x.kind
      case ADirective => status := FetchReset(Directive, x);
      case ADocumentIndicator => status := FetchReset(DocumentIndicator, x);
      case AFlowStart => status := FetchFlowCollectionStart(x);
      case AFlowEnd => status := FetchFlowCollectionEnd(x);
      case AFlowEntry => status := FetchFlowEntry(x);
      case ABlockEntry => status := FetchBlockEntry(x);
      case AKey => status := FetchKey(x);
      case AValue => status := FetchValue(x);
      case Quoted => status := FetchNode(x);
      case Plain => status := FetchNode(x);
      case BlockScalar => status := FetchBlockScalar(x);
      case BadNode => status := FetchBadNode();
      case Bad => status := Failed;
    }

    // ---------- the driver ----------

    method ScanToNextToken()
      requires Intact()
      modifies this
      ensures Intact() && View() == ToNextToken(old(View()))
    {
      var line := mark.line;
      if input != [] {
        mark := input[0].start;
      } else if Before(mark, eof) {
        mark := eof;
      }
      if line < mark.line && flowLevel == 0 {
        simpleKeyAllowed := true;
      }
    }

    method FetchNextToken() returns (status: Status)
      requires Intact() && Valid(View())
      modifies this, tokens, tokens.buffer
      ensures Intact() && (tokens.buffer == old(tokens.buffer) || fresh(tokens.buffer))
      ensures Did(FetchNext(old(View())), status)
    {
      if !started {
        FetchStreamStart();
        return Fine;
      }
      ApproachKeeps(View());
      status := Approach();
      if status != Fine { return; }
      status := Arrive();
    }

    /** Move to the next token, drop stale keys and close the blocks that end before it. */
    method Approach() returns (status: Status)
      requires Intact()
      modifies this, tokens, tokens.buffer
      ensures Intact() && (tokens.buffer == old(tokens.buffer) || fresh(tokens.buffer))
      ensures Did(ScannerSpec.Approach(old(View())), status)
    {
      ScanToNextToken();
      status := StaleSimpleKeys();
      if status != Fine { return; }
      status := UnrollIndent(mark.column);
    }

    method Arrive() returns (status: Status)
      requires Intact() && Sound(View()) && started
      modifies this, tokens, tokens.buffer
      ensures Intact() && (tokens.buffer == old(tokens.buffer) || fresh(tokens.buffer))
      ensures Did(Arrived(old(View())), status)
    {
      if input == [] {
        status := FetchStreamEnd();
      } else {
        var x := input[0];
        input := input[1..];
        status := Dispatch(x);
      }
    }

    /** Some possible key sits at the head of the queue. */
    method KeyAtHead() returns (found: bool)
      requires Intact()
      ensures found == HeadMayBeKey(View())
    {
      for i := 0 to |simpleKeys|
        invariant forall j :: 0 <= j < i ==> !(simpleKeys[j].possible && simpleKeys[j].number == tokensParsed)
      {
        if simpleKeys[i].possible && simpleKeys[i].number == tokensParsed {
          return true;
        }
      }
      return false;
    }

    /** One turn of the loop below: `done` when the head of the queue is final. */
    method FetchRound() returns (status: Status, done: bool)
      requires Intact() && Valid(View())
      modifies this, tokens, tokens.buffer
      ensures Intact() && (tokens.buffer == old(tokens.buffer) || fresh(tokens.buffer))
      ensures done ==> Did(FetchMore(old(View())), status)
      ensures !done ==> Goes(old(View()), View())
    {
      if tokens.head < tokens.len {
        StaleKeeps(View());
        status := StaleSimpleKeys();
        if status != Fine { return status, true; }
        var needed := KeyAtHead();
        if !needed { return Fine, true; }
      }
      assert Asks(old(View()), View());
      MoreNext(old(View()), View());
      status := FetchNextToken();
      done := status != Fine;
    }

    /** Fetch until the queue has a token that no later KEY can precede. */
    method FetchMoreTokens() returns (status: Status)
      requires Intact() && Valid(View())
      modifies this, tokens, tokens.buffer
      ensures Intact() && (tokens.buffer == old(tokens.buffer) || fresh(tokens.buffer))
      ensures Did(FetchMore(old(View())), status)
    {
      while true
        invariant Intact() && (tokens.buffer == old(tokens.buffer) || fresh(tokens.buffer))
        invariant Valid(View()) && FetchMore(View()) == FetchMore(old(View()))
        decreases |View().input|, if View().started then 0 else 1, if Settled(View()) then 0 else 1
      {
        var done;
        status, done := FetchRound();
        if done { return; }
      }
    }

    /** The parser takes the head of the queue. */
    method SkipToken() returns (t: Token)
      requires Intact() && tokens.Contents() != []
      modifies this, tokens
      ensures Intact() && View() == Take(old(View())) && t == View().made[tokensParsed - 1]
    {
      t := tokens.Take();
      taken := taken + [t];
      tokensParsed := tokensParsed + 1;
    }
  }
}
