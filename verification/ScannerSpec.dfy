/**
 The scanner's bookkeeping as a value: the simple-key stack, the indentation stack and the
 token queue.  The character layer is a list of lexemes, each with its place in the text.
 */
module ScannerSpec {
  import opened Wrappers
  import opened TokenQueue

  datatype Mark = Mark(index: int, line: int, column: int)

  datatype Kind =
    | StreamStart | StreamEnd | Directive | DocumentIndicator
    | BlockSequenceStart | BlockMappingStart | BlockEnd
    | FlowStart | FlowEnd | FlowEntry | BlockEntry | Key | Value | NodePart

  datatype Token = Token(kind: Kind, start: Mark, end: Mark)

  /**
   What comes next in the text.  `Quoted`: an anchor, alias, tag or quoted scalar.  `BadNode`: the
   start of one of these or of a plain scalar, whose scan then fails.  `Bad`: a character that
   cannot start a token, or any other token whose scan fails.
   */
  datatype LexemeKind =
    | ADirective | ADocumentIndicator | AFlowStart | AFlowEnd | AFlowEntry | ABlockEntry | AKey | AValue
    | Quoted | Plain | BlockScalar | BadNode | Bad

  /** The token covers `start` to `end`; reading it leaves the scanner at `next`, past any trailing blanks. */
  datatype Lexeme = Lexeme(kind: LexemeKind, start: Mark, end: Mark, next: Mark)

  datatype SimpleKey = SimpleKey(possible: bool, required: bool, number: int, mark: Mark)

  const NO_KEY := SimpleKey(false, false, 0, Mark(0, 0, 0))

  /** `made` is every token queued so far in its final order; the parser has taken the first `parsed` of them. */
  datatype Scan = Scan(input: seq<Lexeme>, eof: Mark, mark: Mark, started: bool, made: seq<Token>, parsed: nat,
                       keys: seq<SimpleKey>, allowed: bool, flow: nat, indent: int, indents: seq<int>)

  function Initial(input: seq<Lexeme>, eof: Mark): Scan {
    Scan(input, eof, Mark(0, 0, 0), false, [], 0, [], false, 0, -1, [])
  }

  datatype Outcome = Go(next: Scan) | Fail | Panic

  // ---------- the token queue ----------

  function Insert(s: Scan, number: int, t: Token): Scan
    requires number <= |s.made|
  {
    s.(made := InsertAt(s.made, number, t))
  }

  /** Queue the token of lexeme `x` and move past it. */
  function Consume(s: Scan, kind: Kind, x: Lexeme): Scan {
    s.(made := s.made + [Token(kind, x.start, x.end)], mark := x.next)
  }

  // ---------- simple keys ----------

  predicate IsStale(k: SimpleKey, mark: Mark) {
    k.possible && (k.mark.line < mark.line || k.mark.index + 1024 < mark.index)
  }

  /** Stale keys are dropped; a stale required key is an error. */
  function FreshKeys(keys: seq<SimpleKey>, mark: Mark): Option<seq<SimpleKey>> {
    if keys == [] then Some([])
    else
      var last := keys[|keys| - 1];
      match FreshKeys(keys[..|keys| - 1], mark)
      case None => None
      case Some(rest) =>
        if !IsStale(last, mark) then Some(rest + [last])
        else if last.required then None
        else Some(rest + [last.(possible := false)])
  }

  function Stale(s: Scan): Outcome {
    match FreshKeys(s.keys, s.mark)
    case None => Fail
    case Some(keys) => Go(s.(keys := keys))
  }

  function RemoveKey(s: Scan): Outcome {
    if s.keys == [] then Panic
    else
      var i := |s.keys| - 1;
      if s.keys[i].possible && s.keys[i].required then Fail
      else Go(s.(keys := s.keys[i := s.keys[i].(possible := false)]))
  }

  predicate KeyRequired(s: Scan) { s.flow == 0 && s.indent == s.mark.column }

  function SaveKey(s: Scan): Outcome {
    if KeyRequired(s) && !s.allowed then Panic
    else if !s.allowed then Go(s)
    else
      match RemoveKey(s)
      case Go(r) => Go(r.(keys := r.keys[..|r.keys| - 1] + [SimpleKey(true, KeyRequired(s), |s.made|, s.mark)]))
      case other => other
  }

  function IncreaseFlow(s: Scan): Scan { s.(keys := s.keys + [NO_KEY], flow := s.flow + 1) }

  function DecreaseFlow(s: Scan): Scan {
    if s.flow > 0 && s.keys != [] then s.(keys := s.keys[..|s.keys| - 1], flow := s.flow - 1) else s
  }

  // ---------- indentation ----------

  function Roll(s: Scan, column: int, number: int, kind: Kind, mark: Mark): Scan
    requires number <= |s.made|
  {
    if s.flow > 0 || s.indent >= column then s
    else Insert(s.(indents := s.indents + [s.indent], indent := column), number, Token(kind, mark, mark))
  }

  /** Popping the empty stack is an index out of range. */
  function Unroll(s: Scan, column: int): Outcome
    decreases |s.indents|
  {
    if s.flow > 0 || s.indent <= column then Go(s)
    else if s.indents == [] then Panic
    else
      var n := |s.indents| - 1;
      Unroll(s.(made := s.made + [Token(BlockEnd, s.mark, s.mark)], indent := s.indents[n], indents := s.indents[..n]),
             column)
  }

  // ---------- fetchers ----------

  function FetchStreamStart(s: Scan): Scan {
    s.(indent := -1, keys := s.keys + [NO_KEY], allowed := true, started := true,
       made := s.made + [Token(StreamStart, s.mark, s.mark)])
  }

  function ForceNewLine(m: Mark): Mark {
    if m.column != 0 then m.(column := 0, line := m.line + 1) else m
  }

  /** Close every block and drop the current simple key. */
  function Reset(s: Scan): Outcome {
    match Unroll(s, -1)
    case Go(u) =>
      (match RemoveKey(u)
       case Go(r) => Go(r.(allowed := false))
       case other => other)
    case other => other
  }

  function FetchStreamEnd(s: Scan): Outcome {
    match Reset(s.(mark := ForceNewLine(s.mark)))
    case Go(r) => Go(r.(made := r.made + [Token(StreamEnd, r.mark, r.mark)]))
    case other => other
  }

  function FetchReset(s: Scan, kind: Kind, x: Lexeme): Outcome {
    match Reset(s)
    case Go(r) => Go(Consume(r, kind, x))
    case other => other
  }

  function FetchFlowStart(s: Scan, x: Lexeme): Outcome {
    match SaveKey(s)
    case Go(r) => Go(Consume(IncreaseFlow(r).(allowed := true), FlowStart, x))
    case other => other
  }

  function FetchFlowEnd(s: Scan, x: Lexeme): Outcome {
    match RemoveKey(s)
    case Go(r) => Go(Consume(DecreaseFlow(r).(allowed := false), FlowEnd, x))
    case other => other
  }

  function FetchFlowEntry(s: Scan, x: Lexeme): Outcome {
    match RemoveKey(s)
    case Go(r) => Go(Consume(r.(allowed := true), FlowEntry, x))
    case other => other
  }

  function FetchBlockEntry(s: Scan, x: Lexeme): Outcome {
    if s.flow == 0 && !s.allowed then Fail
    else
      match RemoveKey(if s.flow == 0 then Roll(s, s.mark.column, -1, BlockSequenceStart, s.mark) else s)
      case Go(r) => Go(Consume(r.(allowed := true), BlockEntry, x))
      case other => other
  }

  function FetchKey(s: Scan, x: Lexeme): Outcome {
    if s.flow == 0 && !s.allowed then Fail
    else
      match RemoveKey(if s.flow == 0 then Roll(s, s.mark.column, -1, BlockMappingStart, s.mark) else s)
      case Go(r) => Go(Consume(r.(allowed := r.flow == 0), Key, x))
      case other => other
  }

  /** The saved key `k` becomes a key after all: KEY, and if a mapping starts here BLOCK-MAPPING-START, go before it. */
  function ConfirmKey(s: Scan, k: SimpleKey): Scan
    requires s.keys != [] && 0 <= k.number <= |s.made|
  {
    var i := Insert(s, k.number, Token(Key, k.mark, k.mark));
    var r := Roll(i, k.mark.column, k.number, BlockMappingStart, k.mark);
    r.(keys := s.keys[|s.keys| - 1 := k.(possible := false)], allowed := false)
  }

  function FetchValue(s: Scan, x: Lexeme): Outcome {
    if s.keys == [] then Panic
    else
      var k := s.keys[|s.keys| - 1];
      if k.possible then
        if 0 <= k.number <= |s.made| then Go(Consume(ConfirmKey(s, k), Value, x)) else Panic
      else if s.flow == 0 && !s.allowed then Fail
      else
        var r := if s.flow == 0 then Roll(s, s.mark.column, -1, BlockMappingStart, s.mark) else s;
        Go(Consume(r.(allowed := r.flow == 0), Value, x))
  }

  function FetchNode(s: Scan, x: Lexeme): Outcome {
    match SaveKey(s)
    case Go(r) => Go(Consume(r.(allowed := x.kind.Plain? && x.end.line < x.next.line), NodePart, x))
    case other => other
  }

  /** The simple key is saved before the token is scanned. */
  function FetchBadNode(s: Scan): Outcome {
    match SaveKey(s)
    case Go(_) => Fail
    case other => other
  }

  function FetchBlockScalar(s: Scan, x: Lexeme): Outcome {
    match RemoveKey(s)
    case Go(r) => Go(Consume(r.(allowed := true), NodePart, x))
    case other => other
  }

  function Dispatch(s: Scan, x: Lexeme): Outcome {
    match x.kind
    case ADirective => FetchReset(s, Directive, x)
    case ADocumentIndicator => FetchReset(s, DocumentIndicator, x)
    case AFlowStart => FetchFlowStart(s, x)
    case AFlowEnd => FetchFlowEnd(s, x)
    case AFlowEntry => FetchFlowEntry(s, x)
    case ABlockEntry => FetchBlockEntry(s, x)
    case AKey => FetchKey(s, x)
    case AValue => FetchValue(s, x)
    case Quoted => FetchNode(s, x)
    case Plain => FetchNode(s, x)
    case BlockScalar => FetchBlockScalar(s, x)
    case BadNode => FetchBadNode(s)
    case Bad => Fail
  }

  predicate Before(a: Mark, b: Mark) {
    a.line < b.line || (a.line == b.line && a.column < b.column)
  }

  /** Where the next token starts: past blanks, comments and line breaks. */
  function NextPlace(s: Scan): Mark {
    if s.input != [] then s.input[0].start else if Before(s.mark, s.eof) then s.eof else s.mark
  }

  /** A line break skipped in block context allows a simple key. */
  function ToNextToken(s: Scan): Scan {
    var place := NextPlace(s);
    s.(mark := place, allowed := s.allowed || (s.flow == 0 && s.mark.line < place.line))
  }

  /** Move to the next token, drop stale keys and close the blocks that end before it. */
  function Approach(s: Scan): Outcome {
    match Stale(ToNextToken(s))
    case Go(r) => Unroll(r, r.mark.column)
    case other => other
  }

  function FetchNext(s: Scan): Outcome {
    if !s.started then Go(FetchStreamStart(s))
    else
      match Approach(s)
      case Go(r) => if r.input == [] then FetchStreamEnd(r) else Dispatch(r.(input := r.input[1..]), r.input[0])
      case other => other
  }

  /** Some possible key sits at the head of the queue: a KEY token may still have to go before it. */
  predicate HeadMayBeKey(s: Scan) {
    exists i :: 0 <= i < |s.keys| && s.keys[i].possible && s.keys[i].number == s.parsed
  }

  /** The parser takes the token at the head of the queue. */
  function Take(s: Scan): Scan { s.(parsed := s.parsed + 1) }
}
