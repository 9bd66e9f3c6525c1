/**
 Which tokens the scanner makes.  Over every run, leaving out the tokens it inserts (a KEY it
 finds out about later, block starts and block ends), there is one token for STREAM-START, one
 for each lexeme consumed, and one for STREAM-END; and every inserted token stands where the
 token after it starts.
 */
module ScannerTokens {
  import opened Wrappers
  import opened TokenQueue
  import opened ScannerSpec
  import opened ScannerSound

  /** The token a lexeme makes. */
  function KindOf(k: LexemeKind): Kind {
    match k
    case ADirective => Directive
    case ADocumentIndicator => DocumentIndicator
    case AFlowStart => FlowStart
    case AFlowEnd => FlowEnd
    case AFlowEntry => FlowEntry
    case ABlockEntry => BlockEntry
    case AKey => Key
    case AValue => Value
    case _ => NodePart
  }

  function TokenOf(x: Lexeme): Token { Token(KindOf(x.kind), x.start, x.end) }

  function TokensOf(xs: seq<Lexeme>): seq<Token> {
    if xs == [] then [] else TokensOf(xs[..|xs| - 1]) + [TokenOf(xs[|xs| - 1])]
  }

  /** A block start or end, or a KEY that covers no text. */
  predicate Inserted(t: Token) {
    t.kind.BlockSequenceStart? || t.kind.BlockMappingStart? || t.kind.BlockEnd? || (t.kind.Key? && t.start == t.end)
  }

  function Kept(ts: seq<Token>): seq<Token> {
    if ts == [] then []
    else
      var t := ts[|ts| - 1];
      Kept(ts[..|ts| - 1]) + if Inserted(t) then [] else [t]
  }

  lemma {:induction false} KeptAppend(a: seq<Token>, b: seq<Token>)
    ensures Kept(a + b) == Kept(a) + Kept(b)
    decreases |b|
  {
    if b == [] {
      assert a + b == a;
    } else {
      assert (a + b)[..|a + b| - 1] == a + b[..|b| - 1];
      KeptAppend(a, b[..|b| - 1]);
    }
  }

  lemma {:induction false} KeptOne(t: Token)
    ensures Kept([t]) == if Inserted(t) then [] else [t]
  {
    assert [t][..0] == [];
  }

  lemma {:induction false} KeptSnoc(a: seq<Token>, t: Token)
    ensures Kept(a + [t]) == Kept(a) + if Inserted(t) then [] else [t]
  {
    KeptAppend(a, [t]);
    KeptOne(t);
  }

  lemma {:induction false} KeptInsert(a: seq<Token>, number: int, t: Token)
    requires number <= |a| && Inserted(t)
    ensures Kept(InsertAt(a, number, t)) == Kept(a)
  {
    KeptOne(t);
    if number < 0 {
      KeptAppend(a, [t]);
    } else {
      KeptAppend(a[..number] + [t], a[number..]);
      KeptAppend(a[..number], [t]);
      KeptAppend(a[..number], a[number..]);
      assert a[..number] + a[number..] == a;
    }
  }

  // ---------- where inserted tokens stand ----------

  predicate HeadsNode(t: Token) { t.kind.NodePart? || t.kind.FlowStart? }

  /** What may follow an inserted token: no text comes between, nor a line break unless a block ends there. */
  predicate Introduces(t: Token, next: Token) {
    && t.start == t.end && t.start.index == next.start.index
    && (t.kind.BlockEnd? || t.start == next.start)
    && (t.kind.BlockSequenceStart? ==> next.kind.BlockEntry?)
    && (t.kind.BlockMappingStart? ==> next.kind.Key? || next.kind.Value?)
    && (t.kind.Key? ==> HeadsNode(next))
  }

  /** Every inserted token introduces the one after it. */
  ghost predicate Placed(ts: seq<Token>) {
    forall i :: 0 <= i < |ts| && Inserted(ts[i]) ==> i + 1 < |ts| && Introduces(ts[i], ts[i + 1])
  }

  predicate EndsAt(t: Token, m: Mark) { t.kind.BlockEnd? && t.start == t.end && t.start.index == m.index }

  /** The same, but for block ends last in the queue, which await a token at `m`. */
  ghost predicate PlacedBefore(ts: seq<Token>, m: Mark) {
    && (forall i :: 0 <= i < |ts| - 1 && Inserted(ts[i]) ==> Introduces(ts[i], ts[i + 1]))
    && (ts != [] && Inserted(ts[|ts| - 1]) ==> EndsAt(ts[|ts| - 1], m))
  }

  lemma {:induction false} PlacedMore(ts: seq<Token>, m: Mark, t: Token)
    requires PlacedBefore(ts, m) && t.start.index == m.index && (Inserted(t) ==> EndsAt(t, m))
    ensures PlacedBefore(ts + [t], m) && (!Inserted(t) ==> Placed(ts + [t]))
  {
    var more := ts + [t];
    forall i | 0 <= i < |more| - 1 && Inserted(more[i]) ensures Introduces(more[i], more[i + 1]) {
      if i < |ts| - 1 {
        assert more[i] == ts[i] && more[i + 1] == ts[i + 1];
      } else {
        assert more[i] == ts[|ts| - 1] && more[i + 1] == t;
      }
    }
  }

  /** A block start and the token it introduces go in together. */
  lemma {:induction false} PlacedPair(ts: seq<Token>, m: Mark, t: Token, next: Token)
    requires PlacedBefore(ts, m) && t.start == m && Inserted(t) && Introduces(t, next) && !Inserted(next)
    ensures Placed(ts + [t] + [next])
  {
    var more := ts + [t] + [next];
    assert more[|ts| + 1] == next && more[|ts|] == t;
    forall i | 0 <= i < |more| && Inserted(more[i]) ensures i + 1 < |more| && Introduces(more[i], more[i + 1]) {
      if i < |ts| - 1 {
        assert more[i] == ts[i] && more[i + 1] == ts[i + 1];
      } else if i == |ts| - 1 {
        assert more[i] == ts[i] && more[i + 1] == t;
      }
    }
  }

  /** An inserted token goes in front of the token it introduces. */
  lemma {:induction false} PlacedInsert(ts: seq<Token>, m: Mark, n: nat, t: Token)
    requires PlacedBefore(ts, m) && n < |ts| && Inserted(t) && Introduces(t, ts[n])
    requires n > 0 && Inserted(ts[n - 1]) ==> Introduces(ts[n - 1], t)
    ensures PlacedBefore(InsertAt(ts, n, t), m)
  {
    var more := InsertAt(ts, n, t);
    assert more[|more| - 1] == ts[|ts| - 1];
    forall i | 0 <= i < |more| - 1 && Inserted(more[i]) ensures Introduces(more[i], more[i + 1]) {
      if i < n - 1 {
        assert more[i] == ts[i] && more[i + 1] == ts[i + 1];
      } else if i == n - 1 {
        assert more[i] == ts[i] && more[i + 1] == t;
      } else if i == n {
        assert more[i] == t && more[i + 1] == ts[n];
      } else {
        assert more[i] == ts[i - 1] && more[i + 1] == ts[i];
      }
    }
  }

  // ---------- what keys name ----------

  /** A possible key names a token that starts a node and has no KEY yet. */
  ghost predicate NamesNode(k: SimpleKey, ts: seq<Token>) {
    k.possible ==>
      && 0 <= k.number < |ts| && HeadsNode(ts[k.number])
      && (k.number > 0 && Inserted(ts[k.number - 1]) ==> ts[k.number - 1].kind.BlockEnd?)
  }

  ghost predicate KeysName(keys: seq<SimpleKey>, ts: seq<Token>) {
    forall i :: 0 <= i < |keys| ==> NamesNode(keys[i], ts)
  }

  lemma {:induction false} NamesMore(keys: seq<SimpleKey>, ts: seq<Token>, t: Token)
    requires KeysName(keys, ts)
    ensures KeysName(keys, ts + [t])
  {
    forall i | 0 <= i < |keys| ensures NamesNode(keys[i], ts + [t]) {
      assert NamesNode(keys[i], ts);
    }
  }

  lemma {:induction false} NamesInsert(keys: seq<SimpleKey>, ts: seq<Token>, n: nat, t: Token)
    requires KeysName(keys, ts) && n <= |ts| && forall i :: 0 <= i < |keys| && keys[i].possible ==> keys[i].number < n
    ensures KeysName(keys, InsertAt(ts, n, t))
  {
    forall i | 0 <= i < |keys| ensures NamesNode(keys[i], InsertAt(ts, n, t)) {
      assert NamesNode(keys[i], ts);
    }
  }

  // ---------- the invariant ----------

  /** STREAM-START, the tokens of the lexemes read so far, and STREAM-END once they are all read. */
  ghost predicate Tells(s: Scan, input: seq<Lexeme>, ts: seq<Token>) {
    && |s.input| <= |input| && s.input == input[|input| - |s.input|..]
    && if !s.started then ts == [] && s.input == input
       else exists ends :: ts == ToldBy(input[..|input| - |s.input|], ends)
                           && EndsOnly(ends) && (ends != [] ==> s.input == [])
  }

  function ToldBy(read: seq<Lexeme>, ends: seq<Token>): seq<Token> {
    [Token(StreamStart, Mark(0, 0, 0), Mark(0, 0, 0))] + TokensOf(read) + ends
  }

  ghost predicate EndsOnly(ends: seq<Token>) { forall i :: 0 <= i < |ends| ==> ends[i].kind.StreamEnd? }

  /** Standing at the next token, with block ends queued in front of it. */
  ghost predicate Standing(s: Scan, input: seq<Lexeme>) {
    PlacedBefore(s.made, s.mark) && KeysName(s.keys, s.made) && Tells(s, input, Kept(s.made))
  }

  ghost predicate Tokenized(s: Scan, input: seq<Lexeme>) {
    && Placed(s.made) && KeysName(s.keys, s.made) && Tells(s, input, Kept(s.made))
    && (!s.started ==> s.mark == Mark(0, 0, 0))
  }

  // ---------- one fetch ----------

  lemma {:induction false} TellsMore(r: Scan, t: Scan, input: seq<Lexeme>, ts: seq<Token>, x: Lexeme)
    requires Tells(r, input, ts) && r.started && r.input != [] && x == r.input[0]
    requires t.started && t.input == r.input[1..]
    ensures Tells(t, input, ts + [TokenOf(x)])
  {
    var n := |input| - |r.input|;
    var ends :| ts == ToldBy(input[..n], ends) && EndsOnly(ends) && (ends != [] ==> r.input == []);
    assert input[..n + 1] == input[..n] + [x];
    assert input[..n + 1][..n] == input[..n];
    assert ts + [TokenOf(x)] == ToldBy(input[..n + 1], []);
    assert EndsOnly([]);
  }

  /** What is at hand when lexeme `x` is about to be consumed, in a state got to from `r`. */
  ghost predicate Ready(r: Scan, s: Scan, x: Lexeme, input: seq<Lexeme>) {
    && r.started && r.input != [] && x == r.input[0] && Before(x.start, x.end) && x.kind != Bad && x.kind != BadNode
    && s.started && s.input == r.input[1..] && PlacedBefore(s.made, x.start) && Tells(r, input, Kept(s.made))
  }

  lemma {:induction false} ConsumeTokenizes(r: Scan, s: Scan, x: Lexeme, input: seq<Lexeme>)
    requires Ready(r, s, x, input) && KeysName(s.keys, s.made + [TokenOf(x)])
    ensures Tokenized(Consume(s, KindOf(x.kind), x), input)
  {
    PlacedMore(s.made, x.start, TokenOf(x));
    KeptSnoc(s.made, TokenOf(x));
    TellsMore(r, Consume(s, KindOf(x.kind), x), input, Kept(s.made), x);
  }

  lemma StillReady(r: Scan, s: Scan, c: Scan, x: Lexeme, input: seq<Lexeme>)
    requires Ready(r, s, x, input) && c.started && c.input == s.input
    requires PlacedBefore(c.made, x.start) && Kept(c.made) == Kept(s.made)
    ensures Ready(r, c, x, input)
  {
  }

  /** The lexeme at `r` is consumed after a step that left the tokens alone and saved no key. */
  lemma {:induction false} PlainConsume(r: Scan, s: Scan, x: Lexeme, input: seq<Lexeme>)
    requires Ready(r, s, x, input) && KeysName(s.keys, s.made)
    ensures Tokenized(Consume(s, KindOf(x.kind), x), input)
  {
    NamesMore(s.keys, s.made, TokenOf(x));
    ConsumeTokenizes(r, s, x, input);
  }

  /** The scanner at `r` has lexeme `x` next; `s` is past it in the input. */
  ghost predicate Meets(r: Scan, s: Scan, x: Lexeme, input: seq<Lexeme>) {
    && Sound(r) && r.started && Standing(r, input) && r.input != [] && x == r.input[0] && r.mark == x.start
    && Before(x.start, x.end) && s == r.(input := r.input[1..])
  }

  lemma {:induction false} MeetsReady(r: Scan, s: Scan, x: Lexeme, input: seq<Lexeme>, t: Scan)
    requires Meets(r, s, x, input) && x.kind != Bad && x.kind != BadNode
    requires t.started && t.input == s.input && t.made == s.made
    ensures Ready(r, t, x, input)
  {
  }

  lemma {:induction false} RemoveNames(s: Scan)
    requires KeysName(s.keys, s.made) && RemoveKey(s).Go?
    ensures var t := RemoveKey(s).next; KeysName(t.keys, s.made) && t == s.(keys := t.keys)
    ensures s.keys != [] && KeysName(s.keys[..|s.keys| - 1], s.made)
  {
    var t := RemoveKey(s).next;
    forall i | 0 <= i < |t.keys| ensures NamesNode(t.keys[i], s.made) {
      assert NamesNode(s.keys[i], s.made);
    }
    var below := s.keys[..|s.keys| - 1];
    forall i | 0 <= i < |below| ensures NamesNode(below[i], s.made) {
      assert NamesNode(s.keys[i], s.made);
    }
  }

  /** Brackets, commas, block scalars: the simple key is dropped and the token queued. */
  lemma {:induction false} DropTokenizes(r: Scan, s: Scan, x: Lexeme, input: seq<Lexeme>)
    requires Meets(r, s, x, input) && (x.kind.AFlowEnd? || x.kind.AFlowEntry? || x.kind.BlockScalar?)
    requires Dispatch(s, x).Go?
    ensures Tokenized(Dispatch(s, x).next, input)
  {
    RemoveNames(s);
    var t := RemoveKey(s).next;
    RemoveNames(t);
    var u := if x.kind.AFlowEnd? then DecreaseFlow(t).(allowed := false) else t.(allowed := true);
    MeetsReady(r, s, x, input, u);
    PlainConsume(r, u, x, input);
  }

  /** The key saved names the token about to be made. */
  lemma {:induction false} SaveNames(s: Scan, t: Token)
    requires KeysName(s.keys, s.made) && PlacedBefore(s.made, s.mark) && HeadsNode(t) && SaveKey(s).Go?
    ensures var u := SaveKey(s).next; KeysName(u.keys, s.made + [t]) && u == s.(keys := u.keys)
  {
    NamesMore(s.keys, s.made, t);
    if s.allowed {
      RemoveNames(s);
      var below, k := s.keys[..|s.keys| - 1], SimpleKey(true, KeyRequired(s), |s.made|, s.mark);
      NamesMore(below, s.made, t);
      assert NamesNode(k, s.made + [t]);
      assert SaveKey(s).next.keys == below + [k];
    }
  }

  lemma NodeIs(s: Scan, x: Lexeme)
    requires (x.kind.Quoted? || x.kind.Plain? || x.kind.AFlowStart?) && Dispatch(s, x).Go?
    ensures SaveKey(s).Go?
    ensures var t := SaveKey(s).next;
            Dispatch(s, x).next
            == Consume(if x.kind.AFlowStart? then IncreaseFlow(t).(allowed := true)
                       else t.(allowed := x.kind.Plain? && x.end.line < x.next.line), KindOf(x.kind), x)
  {
  }

  /** The start of a node. */
  lemma {:induction false} NodeTokenizes(r: Scan, s: Scan, x: Lexeme, input: seq<Lexeme>)
    requires Meets(r, s, x, input) && (x.kind.Quoted? || x.kind.Plain? || x.kind.AFlowStart?)
    requires Dispatch(s, x).Go?
    ensures Tokenized(Dispatch(s, x).next, input)
  {
    NodeIs(s, x);
    SaveNames(s, TokenOf(x));
    var t := SaveKey(s).next;
    var u := if x.kind.AFlowStart? then IncreaseFlow(t).(allowed := true)
             else t.(allowed := x.kind.Plain? && x.end.line < x.next.line);
    assert KeysName(u.keys, s.made + [TokenOf(x)]);
    MeetsReady(r, s, x, input, u);
    ConsumeTokenizes(r, u, x, input);
  }

  /** An entry, a KEY or a VALUE in block context, before which a block may have to start. */
  lemma {:induction false} RollTokenizes(r: Scan, s: Scan, x: Lexeme, input: seq<Lexeme>, kind: Kind, u: Scan)
    requires Meets(r, s, x, input) && (x.kind.ABlockEntry? || x.kind.AKey? || x.kind.AValue?)
    requires if x.kind.ABlockEntry? then kind.BlockSequenceStart? else kind.BlockMappingStart?
    requires var rolled := if s.flow == 0 then Roll(s, s.mark.column, -1, kind, s.mark) else s;
             u.made == rolled.made && u.started && u.input == s.input && KeysName(u.keys, s.made)
    ensures Tokenized(Consume(u, KindOf(x.kind), x), input)
  {
    if u.made == s.made {
      MeetsReady(r, s, x, input, u);
      PlainConsume(r, u, x, input);
    } else {
      var b, t := Token(kind, s.mark, s.mark), TokenOf(x);
      assert u.made == s.made + [b];
      PlacedPair(s.made, s.mark, b, t);
      KeptSnoc(s.made, b);
      KeptSnoc(u.made, t);
      NamesMore(u.keys, s.made, b);
      NamesMore(u.keys, u.made, t);
      TellsMore(r, Consume(u, KindOf(x.kind), x), input, Kept(s.made), x);
    }
  }

  lemma {:induction false} EntryTokenizes(r: Scan, s: Scan, x: Lexeme, input: seq<Lexeme>)
    requires Meets(r, s, x, input) && (x.kind.ABlockEntry? || x.kind.AKey?) && Dispatch(s, x).Go?
    ensures Tokenized(Dispatch(s, x).next, input)
  {
    var kind := if x.kind.ABlockEntry? then BlockSequenceStart else BlockMappingStart;
    var rolled := if s.flow == 0 then Roll(s, s.mark.column, -1, kind, s.mark) else s;
    assert rolled.keys == s.keys && rolled.flow == s.flow;
    var t := RemoveKey(rolled).next;
    RemoveNames(s);
    assert t.keys == RemoveKey(s).next.keys;
    RollTokenizes(r, s, x, input, kind, t.(allowed := x.kind.ABlockEntry? || t.flow == 0));
  }

  // ---------- a value ----------

  /** The tokens put in front of a key found late are inserted ones, and introduce it. */
  lemma {:induction false} ConfirmTokenizes(s: Scan, m: Mark)
    requires Sound(s) && s.started && s.keys[|s.keys| - 1].possible && s.mark == m
    requires PlacedBefore(s.made, m) && KeysName(s.keys, s.made)
    ensures var k := s.keys[|s.keys| - 1];
            && 0 <= k.number <= |s.made| && Kept(ConfirmKey(s, k).made) == Kept(s.made)
            && PlacedBefore(ConfirmKey(s, k).made, m) && KeysName(ConfirmKey(s, k).keys, ConfirmKey(s, k).made)
  {
    var top := |s.keys| - 1;
    var k := s.keys[top];
    var n, dead := k.number, s.keys[top := k.(possible := false)];
    assert NamesNode(k, s.made) && KeyOk(k, s.made, s.parsed, s.mark);
    var key := Token(Key, k.mark, k.mark);
    var made := InsertAt(s.made, n, key);
    assert n > 0 && Inserted(s.made[n - 1]) ==> Introduces(s.made[n - 1], s.made[n]);
    PlacedInsert(s.made, m, n, key);
    KeptInsert(s.made, n, key);
    BelowTop(s, dead, s.made);
    NamesInsert(dead, s.made, n, key);
    if s.flow == 0 && s.indent < k.mark.column {
      var b := Token(BlockMappingStart, k.mark, k.mark);
      assert made[n] == key && (n > 0 ==> made[n - 1] == s.made[n - 1]);
      PlacedInsert(made, m, n, b);
      KeptInsert(made, n, b);
      NamesInsert(dead, made, n, b);
    }
  }

  lemma {:induction false} BelowTop(s: Scan, dead: seq<SimpleKey>, ts: seq<Token>)
    requires Sound(s) && s.started && s.keys[|s.keys| - 1].possible && KeysName(s.keys, ts)
    requires dead == s.keys[|s.keys| - 1 := s.keys[|s.keys| - 1].(possible := false)]
    ensures KeysName(dead, ts)
    ensures forall i :: 0 <= i < |dead| && dead[i].possible ==> dead[i].number < s.keys[|s.keys| - 1].number
  {
    forall i | 0 <= i < |dead| ensures NamesNode(dead[i], ts) {
      assert NamesNode(s.keys[i], ts);
    }
  }

  lemma {:induction false} ConfirmedTokenizes(r: Scan, s: Scan, c: Scan, x: Lexeme, input: seq<Lexeme>)
    requires Meets(r, s, x, input) && x.kind.AValue? && c.started && c.input == s.input
    requires PlacedBefore(c.made, x.start) && Kept(c.made) == Kept(s.made) && KeysName(c.keys, c.made)
    ensures Tokenized(Consume(c, Value, x), input)
  {
    MeetsReady(r, s, x, input, s);
    StillReady(r, s, c, x, input);
    PlainConsume(r, c, x, input);
  }

  lemma {:induction false} SimpleValueTokenizes(r: Scan, s: Scan, x: Lexeme, input: seq<Lexeme>)
    requires Meets(r, s, x, input) && Sound(s) && x.kind.AValue? && s.keys[|s.keys| - 1].possible
    ensures 0 <= s.keys[|s.keys| - 1].number <= |s.made|
    ensures Tokenized(Consume(ConfirmKey(s, s.keys[|s.keys| - 1]), Value, x), input)
  {
    ConfirmTokenizes(s, x.start);
    var c := ConfirmKey(s, s.keys[|s.keys| - 1]);
    ConfirmSound(s);
    ConfirmLater(s, s.keys[|s.keys| - 1]);
    ConfirmedTokenizes(r, s, c, x, input);
  }

  lemma {:induction false} ComplexValueTokenizes(r: Scan, s: Scan, x: Lexeme, input: seq<Lexeme>)
    requires Meets(r, s, x, input) && x.kind.AValue?
    ensures var u := if s.flow == 0 then Roll(s, s.mark.column, -1, BlockMappingStart, s.mark) else s;
            Tokenized(Consume(u.(allowed := u.flow == 0), Value, x), input)
  {
    var u := if s.flow == 0 then Roll(s, s.mark.column, -1, BlockMappingStart, s.mark) else s;
    RollTokenizes(r, s, x, input, BlockMappingStart, u.(allowed := u.flow == 0));
  }

  lemma {:induction false} ValueTokenizes(r: Scan, s: Scan, x: Lexeme, input: seq<Lexeme>)
    requires Meets(r, s, x, input) && Sound(s) && x.kind.AValue? && Dispatch(s, x).Go?
    ensures Tokenized(Dispatch(s, x).next, input)
  {
    ValueIs(s, x);
    if s.keys[|s.keys| - 1].possible {
      SimpleValueTokenizes(r, s, x, input);
    } else {
      ComplexValueTokenizes(r, s, x, input);
    }
  }

  lemma ValueIs(s: Scan, x: Lexeme)
    requires x.kind.AValue? && Dispatch(s, x).Go?
    ensures s.keys != []
    ensures var k := s.keys[|s.keys| - 1];
            var u := if s.flow == 0 then Roll(s, s.mark.column, -1, BlockMappingStart, s.mark) else s;
            (k.possible ==> 0 <= k.number <= |s.made|)
            && Dispatch(s, x).next
               == Consume(if k.possible then ConfirmKey(s, k) else u.(allowed := u.flow == 0), Value, x)
  {
  }

  // ---------- closing blocks ----------

  lemma {:induction false} UnrollTokens(s: Scan, column: int)
    requires PlacedBefore(s.made, s.mark) && KeysName(s.keys, s.made) && Unroll(s, column).Go?
    ensures var u := Unroll(s, column).next;
            && Kept(u.made) == Kept(s.made) && PlacedBefore(u.made, s.mark) && KeysName(u.keys, u.made)
            && u == s.(made := u.made, indent := u.indent, indents := u.indents)
    decreases |s.indents|
  {
    if s.flow == 0 && s.indent > column {
      var n, t := |s.indents| - 1, Token(BlockEnd, s.mark, s.mark);
      PlacedMore(s.made, s.mark, t);
      KeptSnoc(s.made, t);
      NamesMore(s.keys, s.made, t);
      UnrollTokens(s.(made := s.made + [t], indent := s.indents[n], indents := s.indents[..n]), column);
    }
  }

  lemma {:induction false} ResetTokens(s: Scan)
    requires PlacedBefore(s.made, s.mark) && KeysName(s.keys, s.made) && Reset(s).Go?
    ensures var u := Reset(s).next;
            && Kept(u.made) == Kept(s.made) && PlacedBefore(u.made, s.mark) && KeysName(u.keys, u.made)
            && u.mark == s.mark && u.input == s.input && u.started == s.started
  {
    UnrollTokens(s, -1);
    RemoveNames(Unroll(s, -1).next);
  }

  lemma {:induction false} ResetTokenizes(r: Scan, s: Scan, x: Lexeme, input: seq<Lexeme>)
    requires Meets(r, s, x, input) && (x.kind.ADirective? || x.kind.ADocumentIndicator?) && Dispatch(s, x).Go?
    ensures Tokenized(Dispatch(s, x).next, input)
  {
    ResetTokens(s);
    PlainConsume(r, Reset(s).next, x, input);
  }

  lemma {:induction false} DispatchTokenizes(r: Scan, s: Scan, x: Lexeme, input: seq<Lexeme>)
    requires Meets(r, s, x, input) && Sound(s) && Dispatch(s, x).Go?
    ensures Tokenized(Dispatch(s, x).next, input)
  {
    match x.kind
    case ADirective => ResetTokenizes(r, s, x, input);
    case ADocumentIndicator => ResetTokenizes(r, s, x, input);
    case AFlowEnd => DropTokenizes(r, s, x, input);
    case AFlowEntry => DropTokenizes(r, s, x, input);
    case BlockScalar => DropTokenizes(r, s, x, input);
    case ABlockEntry => EntryTokenizes(r, s, x, input);
    case AKey => EntryTokenizes(r, s, x, input);
    case AValue => ValueTokenizes(r, s, x, input);
    case BadNode =>
    case Bad =>
    case _ => NodeTokenizes(r, s, x, input);
  }

  lemma {:induction false} EndTokenizes(r: Scan, input: seq<Lexeme>)
    requires Sound(r) && r.started && r.input == [] && Tells(r, input, Kept(r.made)) && FetchStreamEnd(r).Go?
    requires PlacedBefore(r.made, ForceNewLine(r.mark)) && KeysName(r.keys, r.made)
    ensures Tokenized(FetchStreamEnd(r).next, input)
  {
    var s := r.(mark := ForceNewLine(r.mark));
    ResetTokens(s);
    var u := Reset(s).next;
    var t := Token(StreamEnd, u.mark, u.mark);
    PlacedMore(u.made, s.mark, t);
    KeptSnoc(u.made, t);
    NamesMore(u.keys, u.made, t);
    TellsEnd(r, FetchStreamEnd(r).next, input, Kept(r.made), t);
  }

  lemma {:induction false} TellsEnd(r: Scan, f: Scan, input: seq<Lexeme>, ts: seq<Token>, t: Token)
    requires Tells(r, input, ts) && r.started && r.input == [] && f.started && f.input == [] && t.kind.StreamEnd?
    ensures Tells(f, input, ts + [t])
  {
    var ends :| ts == ToldBy(input[..|input|], ends) && EndsOnly(ends);
    assert ts + [t] == ToldBy(input[..|input|], ends + [t]);
    assert EndsOnly(ends + [t]);
  }

  lemma {:induction false} StartTokenizes(s: Scan, input: seq<Lexeme>)
    requires !s.started && Tokenized(s, input) && s.keys == [] && s.made == []
    ensures Tokenized(FetchStreamStart(s), input)
  {
    var t := Token(StreamStart, Mark(0, 0, 0), Mark(0, 0, 0));
    var f := FetchStreamStart(s);
    assert f.made == [t];
    KeptOne(t);
    assert input[..0] == [] && Kept(f.made) == ToldBy(input[..0], []) && EndsOnly([]);
  }

  lemma {:induction false} StaleNames(keys: seq<SimpleKey>, mark: Mark, ts: seq<Token>)
    requires KeysName(keys, ts) && FreshKeys(keys, mark).Some?
    ensures KeysName(FreshKeys(keys, mark).value, ts)
    decreases |keys|
  {
    if keys != [] {
      var init := keys[..|keys| - 1];
      forall i | 0 <= i < |init| ensures NamesNode(init[i], ts) {
        assert NamesNode(keys[i], ts);
      }
      StaleNames(init, mark, ts);
      assert NamesNode(keys[|keys| - 1], ts);
    }
  }

  /** A queue in which every inserted token has its successor awaits nothing, wherever the scanner moves. */
  lemma PlacedAnywhere(ts: seq<Token>, m: Mark)
    requires Placed(ts)
    ensures PlacedBefore(ts, m)
  {
  }

  lemma {:induction false} ApproachTokens(s: Scan, input: seq<Lexeme>)
    requires Valid(s) && s.started && Tokenized(s, input) && Approach(s).Go?
    ensures var r := Approach(s).next; Standing(r, input) && r.started && r.input == s.input && r.mark == NextPlace(s)
    ensures s.input == [] ==> PlacedBefore(Approach(s).next.made, ForceNewLine(NextPlace(s)))
  {
    var q := Stale(ToNextToken(s)).next;
    StaleNames(s.keys, q.mark, s.made);
    PlacedAnywhere(s.made, q.mark);
    UnrollTokens(q, q.mark.column);
  }

  lemma {:induction false} FetchTokenizes(s: Scan, input: seq<Lexeme>)
    requires Valid(s) && Tokenized(s, input) && FetchNext(s).Go?
    ensures Tokenized(FetchNext(s).next, input)
  {
    if !s.started {
      StartTokenizes(s, input);
    } else {
      ApproachKeeps(s);
      ApproachTokens(s, input);
      var r := Approach(s).next;
      if r.input == [] {
        EndTokenizes(r, input);
      } else {
        DispatchTokenizes(r, r.(input := r.input[1..]), r.input[0], input);
      }
    }
  }

  // ---------- whole runs ----------

  lemma {:induction false} StaleTokenizes(s: Scan, input: seq<Lexeme>)
    requires Tokenized(s, input) && Stale(s).Go?
    ensures Tokenized(Stale(s).next, input)
  {
    StaleNames(s.keys, s.mark, s.made);
  }

  lemma {:induction false} MoreTokenizes(s: Scan, input: seq<Lexeme>)
    requires Valid(s) && Tokenized(s, input) && FetchMore(s).Go?
    ensures Tokenized(FetchMore(s).next, input)
    decreases |s.input|, if s.started then 0 else 1, if Settled(s) then 0 else 1
  {
    if s.parsed == |s.made| {
      AskedTokenizes(s, s, input);
    } else {
      MoreStops(s);
      StaleTokenizes(s, input);
      if HeadMayBeKey(Stale(s).next) {
        AskedTokenizes(s, Stale(s).next, input);
      }
    }
  }

  lemma {:induction false} AskedTokenizes(s: Scan, r: Scan, input: seq<Lexeme>)
    requires Valid(s) && Asks(s, r) && Tokenized(r, input) && FetchMore(s).Go?
    ensures Tokenized(FetchMore(s).next, input)
    decreases |s.input|, if s.started then 0 else 1, if Settled(s) then 0 else 1, 0
  {
    MoreNext(s, r);
    FetchTokenizes(r, input);
    MoreTokenizes(FetchNext(r).next, input);
  }

  lemma {:induction false} TakenTokenizes(s: Scan, n: nat, input: seq<Lexeme>)
    requires Valid(s) && Tokenized(s, input) && Taken(s, n).Go?
    ensures Tokenized(Taken(s, n).next, input)
    decreases n
  {
    if n > 0 {
      FetchMoreKeeps(s);
      MoreTokenizes(s, input);
      TakeKeeps(FetchMore(s).next);
      TakenTokenizes(Take(FetchMore(s).next), n - 1, input);
    }
  }

  /**
   Over every run: the tokens made, but for the inserted ones, are STREAM-START, one for each
   lexeme read, of its kind and with its marks, and STREAM-END after the last; and each inserted
   token introduces the one after it.
   */
  lemma {:induction false} ScannerTellsText(input: seq<Lexeme>, eof: Mark, n: nat)
    requires Readable(input, Mark(0, 0, 0)) && eof.column >= 0
    ensures Valid(ScannerSpec.Initial(input, eof))
    ensures Taken(ScannerSpec.Initial(input, eof), n).Go? ==>
              var r := Taken(ScannerSpec.Initial(input, eof), n).next;
              Placed(r.made) && Tells(r, input, Kept(r.made))
  {
    var s := ScannerSpec.Initial(input, eof);
    InitialValid(input, eof);
    assert input[0..] == input;
    if Taken(s, n).Go? {
      TakenTokenizes(s, n, input);
    }
  }
}
