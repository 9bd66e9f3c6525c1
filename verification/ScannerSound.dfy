/**
 What every scanner step keeps: possible simple keys name queued tokens, block starts and ends
 balance, indentation levels increase, and a token once handed to the parser never moves.
 */
module ScannerSound {
  import opened Wrappers
  import opened TokenQueue
  import opened ScannerSpec

  // ---------- places in the text ----------

  predicate AtOrBefore(a: Mark, b: Mark) { Before(a, b) || (a.line == b.line && a.column == b.column) }

  /** The text reads forwards from `m`. */
  ghost predicate Readable(input: seq<Lexeme>, m: Mark)
    decreases |input|
  {
    && m.column >= 0
    && (input == [] ||
        (&& AtOrBefore(m, input[0].start) && input[0].start.column >= 0
         && Before(input[0].start, input[0].end) && AtOrBefore(input[0].end, input[0].next)
         && Readable(input[1..], input[0].next)))
  }

  // ---------- block balance ----------

  function Weight(t: Token): int {
    if t.kind.BlockSequenceStart? || t.kind.BlockMappingStart? then 1 else if t.kind.BlockEnd? then -1 else 0
  }

  /** Block starts minus block ends. */
  function Depth(h: seq<Token>): int {
    if h == [] then 0 else Depth(h[..|h| - 1]) + Weight(h[|h| - 1])
  }

  /** Every prefix has at least as many block starts as block ends. */
  ghost predicate Balanced(h: seq<Token>) { forall n :: 0 <= n <= |h| ==> Depth(h[..n]) >= 0 }

  lemma {:induction false} DepthAppend(a: seq<Token>, b: seq<Token>)
    ensures Depth(a + b) == Depth(a) + Depth(b)
    decreases |b|
  {
    if b == [] {
      assert a + b == a;
    } else {
      assert (a + b)[..|a + b| - 1] == a + b[..|b| - 1];
      DepthAppend(a, b[..|b| - 1]);
    }
  }

  lemma {:induction false} DepthOne(t: Token)
    ensures Depth([t]) == Weight(t)
  {
    assert [t][..0] == [];
    assert Depth([]) == 0;
  }

  lemma {:induction false} DepthInserted(h: seq<Token>, p: nat, t: Token)
    requires p <= |h|
    ensures Depth(h[..p] + [t] + h[p..]) == Depth(h) + Weight(t)
  {
    DepthOne(t);
    DepthAppend(h[..p] + [t], h[p..]);
    DepthAppend(h[..p], [t]);
    DepthAppend(h[..p], h[p..]);
    assert h[..p] + h[p..] == h;
  }

  /** Inserting anything but a block end keeps the balance; so does a block end at the end, if one is open. */
  lemma {:induction false} InsertBalanced(h: seq<Token>, number: int, t: Token)
    requires Balanced(h) && number <= |h|
    requires Weight(t) >= 0 || (number < 0 && Depth(h) > 0)
    ensures Balanced(InsertAt(h, number, t)) && Depth(InsertAt(h, number, t)) == Depth(h) + Weight(t)
  {
    var p: nat := if number < 0 then |h| else number;
    var g := InsertAt(h, number, t);
    assert g == h[..p] + [t] + h[p..];
    DepthInserted(h, p, t);
    forall n | 0 <= n <= |g| ensures Depth(g[..n]) >= 0 {
      if n <= p {
        assert g[..n] == h[..n];
      } else {
        var i := h[..n - 1];
        assert g[..n] == i[..p] + [t] + i[p..];
        DepthInserted(i, p, t);
        assert n == |g| ==> i == h;
        assert Depth(h[..n - 1]) >= 0;
      }
    }
  }

  // ---------- the invariant ----------

  /** A possible key names a queued token, the one that starts where the key was saved. */
  ghost predicate KeyOk(k: SimpleKey, made: seq<Token>, parsed: nat, m: Mark) {
    k.possible ==> parsed <= k.number < |made| && made[k.number].start == k.mark && Before(k.mark, m)
                   && k.mark.column >= 0
  }

  ghost predicate KeysOk(keys: seq<SimpleKey>, made: seq<Token>, parsed: nat, m: Mark) {
    && (forall i :: 0 <= i < |keys| ==> KeyOk(keys[i], made, parsed, m))
    && forall i, j :: 0 <= i < j < |keys| && keys[i].possible && keys[j].possible ==> keys[i].number < keys[j].number
  }

  ghost predicate Increasing(levels: seq<int>) {
    && levels != [] && levels[0] == -1
    && forall i, j :: 0 <= i < j < |levels| ==> levels[i] < levels[j]
  }

  /** One open level above -1 per unmatched block start. */
  ghost predicate LevelsOk(indents: seq<int>, indent: int, made: seq<Token>) {
    Increasing(indents + [indent]) && Balanced(made) && Depth(made) == |indents|
  }

  /** Everything but where the text goes on. */
  ghost predicate Sound(s: Scan) {
    && s.parsed <= |s.made|
    && |s.keys| == (if s.started then s.flow + 1 else 0)
    && (!s.started ==> s.flow == 0 && s.made == [] && s.indents == [])
    && KeysOk(s.keys, s.made, s.parsed, s.mark)
    && LevelsOk(s.indents, s.indent, s.made)
  }

  ghost predicate Valid(s: Scan) { Sound(s) && Readable(s.input, s.mark) && s.eof.column >= 0 }

  /** `t` is a later state than `s`: it has more tokens, and those already taken are as they were. */
  ghost predicate Later(s: Scan, t: Scan) {
    && t.parsed == s.parsed && |s.made| <= |t.made| && s.parsed <= |s.made| && t.eof == s.eof
    && t.made[..s.parsed] == s.made[..s.parsed]
  }

  // ---------- keys ----------

  lemma {:induction false} KeysAppend(keys: seq<SimpleKey>, made: seq<Token>, parsed: nat, m: Mark, t: Token, n: Mark)
    requires KeysOk(keys, made, parsed, m) && AtOrBefore(m, n)
    ensures KeysOk(keys, made + [t], parsed, n)
  {
    forall i | 0 <= i < |keys| ensures KeyOk(keys[i], made + [t], parsed, n) {
      assert KeyOk(keys[i], made, parsed, m);
    }
  }

  lemma {:induction false} KeysMove(keys: seq<SimpleKey>, made: seq<Token>, parsed: nat, m: Mark, n: Mark)
    requires KeysOk(keys, made, parsed, m) && AtOrBefore(m, n)
    ensures KeysOk(keys, made, parsed, n)
  {
    forall i | 0 <= i < |keys| ensures KeyOk(keys[i], made, parsed, n) {
      assert KeyOk(keys[i], made, parsed, m);
    }
  }

  /** Dropping or disabling keys at the top keeps the rest. */
  lemma {:induction false} KeysDrop(keys: seq<SimpleKey>, made: seq<Token>, parsed: nat, m: Mark, k: SimpleKey)
    requires KeysOk(keys, made, parsed, m) && keys != [] && !k.possible
    ensures KeysOk(keys[|keys| - 1 := k], made, parsed, m) && KeysOk(keys[..|keys| - 1], made, parsed, m)
    ensures KeysOk(keys + [k], made, parsed, m)
  {
  }

  lemma {:induction false} KeysSave(keys: seq<SimpleKey>, made: seq<Token>, parsed: nat, m: Mark, t: Token,
                                    required: bool, n: Mark)
    requires KeysOk(keys, made, parsed, m) && parsed <= |made| && t.start == m && Before(m, n) && m.column >= 0
    ensures KeysOk(keys + [SimpleKey(true, required, |made|, m)], made + [t], parsed, n)
  {
    KeysAppend(keys, made, parsed, m, t, n);
    forall i | 0 <= i < |keys| && keys[i].possible ensures keys[i].number < |made| {
      assert KeyOk(keys[i], made, parsed, m);
    }
  }

  lemma {:induction false} FreshKeep(keys: seq<SimpleKey>, mark: Mark, made: seq<Token>, parsed: nat, m: Mark)
    requires KeysOk(keys, made, parsed, m) && FreshKeys(keys, mark).Some?
    ensures |FreshKeys(keys, mark).value| == |keys| && KeysOk(FreshKeys(keys, mark).value, made, parsed, m)
    ensures forall i :: 0 <= i < |keys| ==> FreshKeys(keys, mark).value[i] ==
                                            if IsStale(keys[i], mark) then keys[i].(possible := false) else keys[i]
    decreases |keys|
  {
    if keys != [] {
      FreshKeep(keys[..|keys| - 1], mark, made, parsed, m);
    }
  }

  /** Inserting at the top key's own number leaves the keys below it, whose numbers are smaller, on their tokens. */
  lemma {:induction false} KeysInsert(keys: seq<SimpleKey>, made: seq<Token>, parsed: nat, m: Mark, t: Token,
                                      k: SimpleKey)
    requires KeysOk(keys, made, parsed, m) && keys != [] && !k.possible
    requires keys[|keys| - 1].possible
    ensures 0 <= keys[|keys| - 1].number < |made|
    ensures KeysOk(keys[|keys| - 1 := k], InsertAt(made, keys[|keys| - 1].number, t), parsed, m)
  {
    var top := keys[|keys| - 1];
    assert KeyOk(top, made, parsed, m);
    var rest := keys[|keys| - 1 := k];
    forall i | 0 <= i < |rest| ensures KeyOk(rest[i], InsertAt(made, top.number, t), parsed, m) {
      assert KeyOk(keys[i], made, parsed, m);
    }
  }

  // ---------- levels ----------

  lemma {:induction false} LevelsInsert(indents: seq<int>, indent: int, made: seq<Token>, number: int, t: Token)
    requires LevelsOk(indents, indent, made) && number <= |made| && Weight(t) == 0
    ensures LevelsOk(indents, indent, InsertAt(made, number, t))
  {
    InsertBalanced(made, number, t);
  }

  lemma {:induction false} LevelsAppend(indents: seq<int>, indent: int, made: seq<Token>, t: Token)
    requires LevelsOk(indents, indent, made) && Weight(t) == 0
    ensures LevelsOk(indents, indent, made + [t])
  {
    LevelsInsert(indents, indent, made, -1, t);
  }

  lemma {:induction false} LevelsRoll(indents: seq<int>, indent: int, made: seq<Token>, number: int, t: Token,
                                      column: int)
    requires LevelsOk(indents, indent, made) && number <= |made| && Weight(t) == 1 && indent < column
    ensures LevelsOk(indents + [indent], column, InsertAt(made, number, t))
  {
    InsertBalanced(made, number, t);
    var old' := indents + [indent];
    assert old'[|indents|] == indent;
    assert forall i :: 0 <= i < |old'| ==> old'[i] <= indent;
  }

  lemma {:induction false} LevelsPop(indents: seq<int>, indent: int, made: seq<Token>, t: Token)
    requires LevelsOk(indents, indent, made) && indents != [] && Weight(t) == -1
    ensures LevelsOk(indents[..|indents| - 1], indents[|indents| - 1], made + [t])
  {
    InsertBalanced(made, -1, t);
    assert indents[..|indents| - 1] + [indents[|indents| - 1]] == indents;
    forall i | 0 <= i < |indents| ensures (indents + [indent])[i] == indents[i] {}
  }

  /** Unrolling never pops the empty stack, and stops at the innermost level that does not exceed the column. */
  lemma {:induction false} UnrollKeeps(s: Scan, column: int)
    requires Sound(s) && s.started && column >= -1
    ensures var o := Unroll(s, column); o.Go? && UnrollsTo(s, column, o.next)
    decreases |s.indents|
  {
    assert (s.indents + [s.indent])[|s.indents|] == s.indent;
    if s.flow > 0 || s.indent <= column {
    } else {
      assert (s.indents + [s.indent])[0] == -1;
      var n := |s.indents| - 1;
      var t := Token(BlockEnd, s.mark, s.mark);
      LevelsPop(s.indents, s.indent, s.made, t);
      KeysAppend(s.keys, s.made, s.parsed, s.mark, t, s.mark);
      var u := s.(made := s.made + [t], indent := s.indents[n], indents := s.indents[..n]);
      UnrollKeeps(u, column);
      assert (s.indents + [s.indent])[n] == s.indents[n];
      LevelOfPopped(s.indents, s.indent, column);
    }
  }

  lemma {:induction false} LevelOfPopped(indents: seq<int>, indent: int, column: int)
    requires indents != [] && indent > column
    ensures column in indents + [indent] <==> column in indents[..|indents| - 1] + [indents[|indents| - 1]]
  {
    assert indents[..|indents| - 1] + [indents[|indents| - 1]] == indents;
  }

  ghost predicate UnrollsTo(s: Scan, column: int, u: Scan) {
    && Sound(u) && Later(s, u) && u == s.(made := u.made, indent := u.indent, indents := u.indents)
    && (s.flow == 0 ==> u.indent <= column && (u.indent == column <==> column in s.indents + [s.indent]))
    && (column == -1 && s.flow == 0 ==> u.indents == [] && Depth(u.made) == 0)
  }

  // ---------- fetching one token ----------

  /** The scanner stands at the start of lexeme `x`. */
  ghost predicate AtLexeme(s: Scan, x: Lexeme) {
    && Sound(s) && s.started && s.mark == x.start && s.mark.column >= 0
    && Before(x.start, x.end) && AtOrBefore(x.end, x.next) && Readable(s.input, x.next) && s.eof.column >= 0
  }

  ghost predicate Fetched(s: Scan, o: Outcome) {
    o.Go? ==> Valid(o.next) && Later(s, o.next) && o.next.started && |s.made| < |o.next.made| && o.next.input == s.input
  }

  lemma {:induction false} ConsumeKeeps(s: Scan, kind: Kind, x: Lexeme)
    requires AtLexeme(s, x) && !kind.BlockSequenceStart? && !kind.BlockMappingStart? && !kind.BlockEnd?
    ensures Fetched(s, Go(Consume(s, kind, x)))
  {
    var t := Token(kind, x.start, x.end);
    KeysAppend(s.keys, s.made, s.parsed, s.mark, t, x.next);
    LevelsAppend(s.indents, s.indent, s.made, t);
  }

  lemma {:induction false} RemoveKeeps(s: Scan)
    requires Sound(s) && s.started
    ensures !RemoveKey(s).Panic?
    ensures RemoveKey(s).Go? ==> var r := RemoveKey(s).next; Sound(r) && r == s.(keys := r.keys)
  {
    var n := |s.keys| - 1;
    KeysDrop(s.keys, s.made, s.parsed, s.mark, s.keys[n].(possible := false));
  }

  lemma {:induction false} RollKeeps(s: Scan, column: int, kind: Kind, mark: Mark)
    requires Sound(s) && s.started && (kind.BlockSequenceStart? || kind.BlockMappingStart?)
    ensures var r := Roll(s, column, -1, kind, mark);
            Sound(r) && Later(s, r) && r == s.(made := r.made, indent := r.indent, indents := r.indents)
  {
    if s.flow == 0 && s.indent < column {
      var t := Token(kind, mark, mark);
      LevelsRoll(s.indents, s.indent, s.made, -1, t, column);
      KeysAppend(s.keys, s.made, s.parsed, s.mark, t, s.mark);
    }
  }

  lemma {:induction false} ResetKeeps(s: Scan)
    requires Sound(s) && s.started
    ensures !Reset(s).Panic?
    ensures Reset(s).Go? ==> var r := Reset(s).next;
              && Sound(r) && Later(s, r) && r.mark == s.mark && r.input == s.input && r.started && r.flow == s.flow
              && (s.flow == 0 ==> r.indents == [] && Depth(r.made) == 0)
  {
    UnrollKeeps(s, -1);
    RemoveKeeps(Unroll(s, -1).next);
  }

  /** Saving a key and queueing its token leaves the key on that token, above every older key. */
  lemma {:induction false} SaveKeeps(s: Scan, kind: Kind, x: Lexeme, allowed: bool, deeper: bool)
    requires AtLexeme(s, x) && (kind.FlowStart? || kind.NodePart?) && SaveKey(s).Go?
    ensures var r := SaveKey(s).next;
            var f := if deeper then IncreaseFlow(r) else r;
            Fetched(s, Go(Consume(f.(allowed := allowed), kind, x)))
  {
    var t := Token(kind, x.start, x.end);
    LevelsAppend(s.indents, s.indent, s.made, t);
    var r := SaveKey(s).next;
    if s.allowed {
      RemoveKeeps(s);
      var below := s.keys[..|s.keys| - 1];
      KeysDrop(s.keys, s.made, s.parsed, s.mark, NO_KEY);
      KeysSave(below, s.made, s.parsed, s.mark, t, KeyRequired(s), x.next);
      assert r.keys == below + [SimpleKey(true, KeyRequired(s), |s.made|, s.mark)];
    } else {
      KeysAppend(s.keys, s.made, s.parsed, s.mark, t, x.next);
    }
    if deeper {
      KeysDrop(r.keys, s.made + [t], s.parsed, x.next, NO_KEY);
    }
  }

  lemma {:induction false} FlowEndKeeps(s: Scan, x: Lexeme)
    requires AtLexeme(s, x)
    ensures !FetchFlowEnd(s, x).Panic? && Fetched(s, FetchFlowEnd(s, x))
  {
    RemoveKeeps(s);
    if RemoveKey(s).Go? {
      var r := RemoveKey(s).next;
      KeysDrop(r.keys, r.made, r.parsed, r.mark, NO_KEY);
      ConsumeKeeps(DecreaseFlow(r).(allowed := false), FlowEnd, x);
    }
  }

  lemma {:induction false} IndicatorKeeps(s: Scan, x: Lexeme)
    requires AtLexeme(s, x)
    ensures !FetchFlowEntry(s, x).Panic? && Fetched(s, FetchFlowEntry(s, x))
    ensures !FetchBlockScalar(s, x).Panic? && Fetched(s, FetchBlockScalar(s, x))
  {
    RemoveKeeps(s);
    if RemoveKey(s).Go? {
      var r := RemoveKey(s).next;
      ConsumeKeeps(r.(allowed := true), FlowEntry, x);
      ConsumeKeeps(r.(allowed := true), NodePart, x);
    }
  }

  lemma {:induction false} BlockEntryKeeps(s: Scan, x: Lexeme)
    requires AtLexeme(s, x)
    ensures !FetchBlockEntry(s, x).Panic? && Fetched(s, FetchBlockEntry(s, x))
  {
    RollKeeps(s, s.mark.column, BlockSequenceStart, s.mark);
    var r := if s.flow == 0 then Roll(s, s.mark.column, -1, BlockSequenceStart, s.mark) else s;
    RemoveKeeps(r);
    if RemoveKey(r).Go? {
      ConsumeKeeps(RemoveKey(r).next.(allowed := true), BlockEntry, x);
    }
  }

  lemma {:induction false} KeyKeeps(s: Scan, x: Lexeme)
    requires AtLexeme(s, x)
    ensures !FetchKey(s, x).Panic? && Fetched(s, FetchKey(s, x))
  {
    RollKeeps(s, s.mark.column, BlockMappingStart, s.mark);
    var r := if s.flow == 0 then Roll(s, s.mark.column, -1, BlockMappingStart, s.mark) else s;
    RemoveKeeps(r);
    if RemoveKey(r).Go? {
      ConsumeKeeps(RemoveKey(r).next.(allowed := r.flow == 0), Key, x);
    }
  }

  /** The tokens put in front of a confirmed key: KEY, and before it BLOCK-MAPPING-START if a mapping opens here. */
  function KeyTokens(s: Scan, k: SimpleKey): seq<Token> {
    (if s.flow == 0 && s.indent < k.mark.column then [Token(BlockMappingStart, k.mark, k.mark)] else [])
    + [Token(Key, k.mark, k.mark)]
  }

  /**
   A confirmed key's tokens land in the queue immediately before the token where the key was
   saved; nothing else moves, and every older key stays on its own token.
   */
  lemma {:induction false} KeyLandsBeforeItsToken(s: Scan)
    requires Sound(s) && s.started && s.keys[|s.keys| - 1].possible
    ensures var k := s.keys[|s.keys| - 1];
            && s.parsed <= k.number < |s.made| && s.made[k.number].start == k.mark
            && ConfirmKey(s, k).made == s.made[..k.number] + KeyTokens(s, k) + s.made[k.number..]
  {
    var k := s.keys[|s.keys| - 1];
    assert KeyOk(k, s.made, s.parsed, s.mark);
    var made := InsertAt(s.made, k.number, Token(Key, k.mark, k.mark));
    if s.flow == 0 && s.indent < k.mark.column {
      assert InsertAt(made, k.number, Token(BlockMappingStart, k.mark, k.mark))
          == s.made[..k.number] + KeyTokens(s, k) + s.made[k.number..];
    } else {
      assert made == s.made[..k.number] + KeyTokens(s, k) + s.made[k.number..];
    }
  }

  lemma {:induction false} ConfirmSound(s: Scan)
    requires Sound(s) && s.started && s.keys[|s.keys| - 1].possible
    ensures var k := s.keys[|s.keys| - 1]; 0 <= k.number <= |s.made| && Sound(ConfirmKey(s, k))
    ensures s.parsed <= s.keys[|s.keys| - 1].number
  {
    var k := s.keys[|s.keys| - 1];
    var dead := k.(possible := false);
    var t := Token(Key, k.mark, k.mark);
    var made := InsertAt(s.made, k.number, t);
    KeysInsert(s.keys, s.made, s.parsed, s.mark, t, dead);
    LevelsInsert(s.indents, s.indent, s.made, k.number, t);
    if s.flow == 0 && s.indent < k.mark.column {
      var b := Token(BlockMappingStart, k.mark, k.mark);
      LevelsRoll(s.indents, s.indent, made, k.number, b, k.mark.column);
      KeysInsertTwice(s.keys, s.made, s.parsed, s.mark, t, b, dead);
    }
  }

  lemma {:induction false} ConfirmLater(s: Scan, k: SimpleKey)
    requires s.keys != [] && s.parsed <= k.number <= |s.made|
    ensures var r := ConfirmKey(s, k); Later(s, r) && r.mark == s.mark && r.input == s.input && r.started == s.started
  {
  }

  lemma {:induction false} KeysInsertTwice(keys: seq<SimpleKey>, made: seq<Token>, parsed: nat, m: Mark, t: Token,
                                           b: Token, k: SimpleKey)
    requires KeysOk(keys, made, parsed, m) && keys != [] && !k.possible
    requires keys[|keys| - 1].possible
    ensures 0 <= keys[|keys| - 1].number < |made|
    ensures var n := keys[|keys| - 1].number;
            KeysOk(keys[|keys| - 1 := k], InsertAt(InsertAt(made, n, t), n, b), parsed, m)
  {
    var top := keys[|keys| - 1];
    assert KeyOk(top, made, parsed, m);
    var rest := keys[|keys| - 1 := k];
    forall i | 0 <= i < |rest|
      ensures KeyOk(rest[i], InsertAt(InsertAt(made, top.number, t), top.number, b), parsed, m)
    {
      assert KeyOk(keys[i], made, parsed, m);
    }
  }

  lemma {:induction false} ValueKeeps(s: Scan, x: Lexeme)
    requires AtLexeme(s, x)
    ensures !FetchValue(s, x).Panic? && Fetched(s, FetchValue(s, x))
  {
    if s.keys[|s.keys| - 1].possible {
      SimpleValueKeeps(s, x);
    } else {
      ComplexValueKeeps(s, x);
    }
  }

  lemma {:induction false} SimpleValueKeeps(s: Scan, x: Lexeme)
    requires AtLexeme(s, x) && s.keys[|s.keys| - 1].possible
    ensures !FetchValue(s, x).Panic? && Fetched(s, FetchValue(s, x))
  {
    var k := s.keys[|s.keys| - 1];
    ConfirmSound(s);
    SimpleValueIs(s, x);
    ConfirmedKeeps(s, ConfirmKey(s, k), x);
  }

  lemma {:induction false} SimpleValueIs(s: Scan, x: Lexeme)
    requires s.keys != [] && s.keys[|s.keys| - 1].possible && 0 <= s.keys[|s.keys| - 1].number <= |s.made|
    requires s.parsed <= s.keys[|s.keys| - 1].number
    ensures var q := ConfirmKey(s, s.keys[|s.keys| - 1]);
            && FetchValue(s, x) == Go(Consume(q, Value, x))
            && Later(s, q) && q.mark == s.mark && q.input == s.input && q.started == s.started
  {
    ConfirmLater(s, s.keys[|s.keys| - 1]);
  }

  lemma {:induction false} ConfirmedKeeps(s: Scan, q: Scan, x: Lexeme)
    requires AtLexeme(s, x) && Sound(q) && FetchValue(s, x) == Go(Consume(q, Value, x))
    requires Later(s, q) && q.mark == s.mark && q.input == s.input && q.started == s.started
    ensures !FetchValue(s, x).Panic? && Fetched(s, FetchValue(s, x))
  {
    ConsumeLater(s, q, Value, x);
  }

  /** Queueing a token after having moved from `s` to `t`. */
  lemma {:induction false} ConsumeLater(s: Scan, t: Scan, kind: Kind, x: Lexeme)
    requires AtLexeme(t, x) && !kind.BlockSequenceStart? && !kind.BlockMappingStart? && !kind.BlockEnd?
    requires Later(s, t) && t.input == s.input
    ensures Fetched(s, Go(Consume(t, kind, x)))
  {
    ConsumeKeeps(t, kind, x);
  }

  lemma {:induction false} AllowedKeeps(s: Scan, allowed: bool)
    requires Sound(s)
    ensures Sound(s.(allowed := allowed)) && Later(s, s.(allowed := allowed))
  {
  }

  lemma {:induction false} ComplexValueKeeps(s: Scan, x: Lexeme)
    requires AtLexeme(s, x) && !s.keys[|s.keys| - 1].possible
    ensures !FetchValue(s, x).Panic? && Fetched(s, FetchValue(s, x))
  {
    var r := if s.flow == 0 then Roll(s, s.mark.column, -1, BlockMappingStart, s.mark) else s;
    var q := r.(allowed := r.flow == 0);
    if s.flow > 0 || s.allowed {
      RollKeeps(s, s.mark.column, BlockMappingStart, s.mark);
      AllowedKeeps(r, r.flow == 0);
      ConfirmedKeeps(s, q, x);
    }
  }

  predicate StartsNode(x: Lexeme) { x.kind.Quoted? || x.kind.Plain? || x.kind.AFlowStart? || x.kind.BadNode? }

  lemma {:induction false} SavePanics(s: Scan)
    requires Sound(s) && s.started
    ensures SaveKey(s).Panic? <==> KeyRequired(s) && !s.allowed
  {
    RemoveKeeps(s);
  }

  lemma {:induction false} NodeKeeps(s: Scan, x: Lexeme)
    requires AtLexeme(s, x) && StartsNode(x)
    ensures Fetched(s, Dispatch(s, x)) && (Dispatch(s, x).Panic? <==> KeyRequired(s) && !s.allowed)
  {
    SavePanics(s);
    if SaveKey(s).Go? {
      if x.kind.AFlowStart? {
        SaveKeeps(s, FlowStart, x, true, true);
        assert Dispatch(s, x) == Go(Consume(IncreaseFlow(SaveKey(s).next).(allowed := true), FlowStart, x));
      } else if !x.kind.BadNode? {
        PartKeeps(s, x);
      }
    }
  }

  lemma {:induction false} PartKeeps(s: Scan, x: Lexeme)
    requires AtLexeme(s, x) && (x.kind.Quoted? || x.kind.Plain?) && SaveKey(s).Go?
    ensures Fetched(s, Dispatch(s, x)) && Dispatch(s, x).Go?
  {
    var allowed := x.kind.Plain? && x.end.line < x.next.line;
    SaveKeeps(s, NodePart, x, allowed, false);
    assert Dispatch(s, x) == Go(Consume(SaveKey(s).next.(allowed := allowed), NodePart, x));
  }

  lemma {:induction false} DispatchKeeps(s: Scan, x: Lexeme)
    requires AtLexeme(s, x)
    ensures Fetched(s, Dispatch(s, x))
    ensures Dispatch(s, x).Panic? <==> StartsNode(x) && KeyRequired(s) && !s.allowed
  {
    match x.kind
    case ADirective => ResetFetch(s, Directive, x);
    case ADocumentIndicator => ResetFetch(s, DocumentIndicator, x);
    case AFlowEnd => FlowEndKeeps(s, x);
    case AFlowEntry => IndicatorKeeps(s, x);
    case ABlockEntry => BlockEntryKeeps(s, x);
    case AKey => KeyKeeps(s, x);
    case AValue => ValueKeeps(s, x);
    case BlockScalar => IndicatorKeeps(s, x);
    case Bad =>
    case _ => NodeKeeps(s, x);
  }

  lemma {:induction false} ResetFetch(s: Scan, kind: Kind, x: Lexeme)
    requires AtLexeme(s, x) && (kind.Directive? || kind.DocumentIndicator?)
    ensures !FetchReset(s, kind, x).Panic? && Fetched(s, FetchReset(s, kind, x))
  {
    ResetKeeps(s);
    if Reset(s).Go? {
      ConsumeKeeps(Reset(s).next, kind, x);
    }
  }

  /**
   At the end of the stream every open block is closed (unless a flow collection was left open)
   and every key is stale.
   */
  lemma {:induction false} StreamEndCloses(s: Scan)
    requires Sound(s) && s.started && s.mark.column >= 0 && s.eof.column >= 0 && s.input == []
    ensures !FetchStreamEnd(s).Panic? && Fetched(s, FetchStreamEnd(s))
    ensures FetchStreamEnd(s).Go? ==> var r := FetchStreamEnd(s).next;
              r.mark.column == 0 && (s.flow == 0 ==> r.indents == [] && Depth(r.made) == 0)
  {
    var m := ForceNewLine(s.mark);
    KeysMove(s.keys, s.made, s.parsed, s.mark, m);
    var s' := s.(mark := m);
    ResetKeeps(s');
    if Reset(s').Go? {
      var r := Reset(s').next;
      var t := Token(StreamEnd, m, m);
      KeysAppend(r.keys, r.made, r.parsed, m, t, m);
      LevelsAppend(r.indents, r.indent, r.made, t);
      InsertBalanced(r.made, -1, t);
    }
  }

  lemma {:induction false} ToNextKeeps(s: Scan)
    requires Valid(s) && s.started
    ensures var r := ToNextToken(s);
            && Sound(r) && AtOrBefore(s.mark, r.mark) && r.mark.column >= 0
            && (r.input != [] ==> r.mark == r.input[0].start)
            && r == s.(mark := r.mark, allowed := r.allowed)
  {
    KeysMove(s.keys, s.made, s.parsed, s.mark, NextPlace(s));
  }

  lemma {:induction false} StaleKeeps(s: Scan)
    requires Sound(s)
    ensures !Stale(s).Panic?
    ensures Stale(s).Go? ==> var r := Stale(s).next;
              && Sound(r) && r == s.(keys := r.keys) && |r.keys| == |s.keys|
              && forall i :: 0 <= i < |s.keys| ==>
                   r.keys[i] == if IsStale(s.keys[i], s.mark) then s.keys[i].(possible := false) else s.keys[i]
  {
    if FreshKeys(s.keys, s.mark).Some? {
      FreshKeep(s.keys, s.mark, s.made, s.parsed, s.mark);
    }
  }

  lemma {:induction false} ApproachKeeps(s: Scan)
    requires Valid(s) && s.started
    ensures !Approach(s).Panic?
    ensures Approach(s).Fail? <==> Stale(ToNextToken(s)).Fail?
    ensures Approach(s).Go? ==> var r := Approach(s).next;
              && Sound(r) && Later(s, r) && r.started && r.input == s.input && r.flow == s.flow
              && r.mark == NextPlace(s) && r.mark.column >= 0
              && (r.input != [] ==> r.mark == r.input[0].start) && r.allowed == ToNextToken(s).allowed
              && (s.flow == 0 ==> (r.indent == r.mark.column <==> r.mark.column in s.indents + [s.indent]))
  {
    ToNextKeeps(s);
    var p := ToNextToken(s);
    StaleKeeps(p);
    if Stale(p).Go? {
      UnrollKeeps(Stale(p).next, p.mark.column);
    }
  }

  function Arrived(r: Scan): Outcome {
    if r.input == [] then FetchStreamEnd(r) else Dispatch(r.(input := r.input[1..]), r.input[0])
  }

  lemma {:induction false} ArrivedKeeps(r: Scan)
    requires Sound(r) && r.started && Readable(r.input, r.mark) && r.eof.column >= 0
    requires r.input != [] ==> r.mark == r.input[0].start
    ensures Arrived(r).Panic? <==> r.input != [] && StartsNode(r.input[0]) && KeyRequired(r) && !r.allowed
    ensures Arrived(r).Go? ==> var f := Arrived(r).next;
              && Valid(f) && Later(r, f) && f.started && |r.made| < |f.made|
              && f.input == (if r.input != [] then r.input[1..] else r.input)
              && (r.input == [] ==> f.mark.column == 0)
  {
    if r.input == [] {
      StreamEndCloses(r);
    } else {
      var q := r.(input := r.input[1..]);
      assert AtLexeme(q, r.input[0]);
      DispatchKeeps(q, r.input[0]);
    }
  }

  lemma {:induction false} StartKeeps(s: Scan)
    requires Valid(s) && !s.started
    ensures Valid(FetchStreamStart(s)) && Later(s, FetchStreamStart(s))
  {
    var t := Token(StreamStart, s.mark, s.mark);
    assert [] + [-1] == [-1];
    LevelsAppend([], s.indent, s.made, t);
    assert [] + [s.indent] == [s.indent];
  }

  /** Every fetch keeps the invariant; what the parser has taken stays; each fetch queues at least one token. */
  lemma {:induction false} FetchKeeps(s: Scan)
    requires Valid(s)
    ensures FetchNext(s).Go? ==> var r := FetchNext(s).next;
              && Valid(r) && Later(s, r) && r.started && |s.made| < |r.made|
              && r.input == (if s.started && s.input != [] then s.input[1..] else s.input)
              && (s.started && s.input == [] ==> r.mark.column == 0)
  {
    if !s.started {
      StartKeeps(s);
    } else {
      ApproachKeeps(s);
      if Approach(s).Go? {
        var r := Approach(s).next;
        assert FetchNext(s) == Arrived(r);
        ArrivedKeeps(r);
        LaterTwice(s, r, FetchNext(s));
      }
    }
  }

  lemma {:induction false} LaterTwice(s: Scan, r: Scan, o: Outcome)
    requires Later(s, r) && (o.Go? ==> Later(r, o.next))
    ensures o.Go? ==> Later(s, o.next)
  {
  }

  // ---------- the "should not happen" panic ----------

  /**
   The next token can start a node on the line the scanner is on, where no simple key is
   allowed, at a column that is one of the open block levels.
   */
  predicate Misplaced(s: Scan) {
    && s.started && s.input != [] && StartsNode(s.input[0]) && s.flow == 0 && !s.allowed
    && s.input[0].start.line <= s.mark.line && s.input[0].start.column in s.indents + [s.indent]
  }

  /**
   The panic the source calls impossible happens exactly on a misplaced node, unless a stale
   required key is reported first.
   */
  lemma {:induction false} PanicIff(s: Scan)
    requires Valid(s)
    ensures FetchNext(s).Panic? <==> Misplaced(s) && !Stale(ToNextToken(s)).Fail?
  {
    if s.started {
      ApproachKeeps(s);
      if Approach(s).Go? {
        var r := Approach(s).next;
        assert FetchNext(s) == Arrived(r);
        ArrivedKeeps(r);
      }
    }
  }

  function Fetches(s: Scan, n: nat): Outcome
    decreases n
  {
    if n == 0 then Go(s)
    else
      match FetchNext(s)
      case Go(r) => Fetches(r, n - 1)
      case other => other
  }

  /** A one-column indented key whose quoted value ends on the next line, with text right after the closing quote. */
  const EXAMPLE: seq<Lexeme> :=
    [Lexeme(Plain, Mark(1, 0, 1), Mark(2, 0, 2), Mark(2, 0, 2)),
     Lexeme(AValue, Mark(2, 0, 2), Mark(3, 0, 3), Mark(3, 0, 3)),
     Lexeme(Quoted, Mark(4, 0, 4), Mark(8, 1, 1), Mark(8, 1, 1)),
     Lexeme(Plain, Mark(8, 1, 1), Mark(9, 1, 2), Mark(9, 1, 2))]

  /** With one key that is not stale and no block to close, the scanner just moves to the next token. */
  lemma {:induction false} ApproachMoves(s: Scan)
    requires |s.keys| == 1 && !IsStale(s.keys[0], NextPlace(s)) && s.indent <= NextPlace(s).column
    ensures Approach(s) == Go(ToNextToken(s))
  {
    var m := NextPlace(s);
    assert s.keys[..0] == [];
    assert FreshKeys([], m) == Some([]);
    assert FreshKeys(s.keys, m) == Some([] + [s.keys[0]]);
    assert [] + [s.keys[0]] == s.keys;
  }

  lemma {:induction false} PanicReachable()
    ensures Valid(Initial(EXAMPLE, Mark(9, 1, 2))) && Fetches(Initial(EXAMPLE, Mark(9, 1, 2)), 5) == Panic
  {
    var eof := Mark(9, 1, 2);
    assert Readable(EXAMPLE[4..], Mark(9, 1, 2));
    assert Readable(EXAMPLE[3..], Mark(8, 1, 1)) by { assert EXAMPLE[3..][1..] == EXAMPLE[4..]; }
    assert Readable(EXAMPLE[2..], Mark(3, 0, 3)) by { assert EXAMPLE[2..][1..] == EXAMPLE[3..]; }
    assert Readable(EXAMPLE[1..], Mark(2, 0, 2)) by { assert EXAMPLE[1..][1..] == EXAMPLE[2..]; }
    InitialValid(EXAMPLE, eof);
    var s0 := Initial(EXAMPLE, eof);
    var s1 := FetchStreamStart(s0);
    assert FetchNext(s0) == Go(s1);
    ExampleRest(s1);
  }

  lemma {:induction false} ExampleRest(s1: Scan)
    requires s1 == FetchStreamStart(Initial(EXAMPLE, Mark(9, 1, 2)))
    ensures Fetches(s1, 4) == Panic
  {
    var start := Token(StreamStart, Mark(0, 0, 0), Mark(0, 0, 0));
    var word := Token(NodePart, Mark(1, 0, 1), Mark(2, 0, 2));
    var key := SimpleKey(true, false, 1, Mark(1, 0, 1));
    assert s1.made == [start] && s1.keys == [NO_KEY];
    assert s1.input == EXAMPLE && s1.indents == [] && s1.indent == -1;
    var s2 := s1.(input := EXAMPLE[1..], mark := Mark(2, 0, 2), made := [start, word], keys := [key], allowed := false);
    assert FetchNext(s1) == Go(s2) by {
      ApproachMoves(s1);
      assert s2.made == s1.made + [word];
    }
    ExampleMore(s2, start, word, key);
    assert Fetches(s1, 4) == Fetches(s2, 3);
  }

  lemma {:induction false} ExampleMore(s2: Scan, start: Token, word: Token, key: SimpleKey)
    requires key == SimpleKey(true, false, 1, Mark(1, 0, 1)) && word == Token(NodePart, Mark(1, 0, 1), Mark(2, 0, 2))
    requires s2.started && s2.input == EXAMPLE[1..] && s2.mark == Mark(2, 0, 2) && s2.made == [start, word]
    requires s2.keys == [key] && !s2.allowed && s2.flow == 0 && s2.indent == -1 && s2.indents == []
    ensures Fetches(s2, 3) == Panic
  {
    var k := key.mark;
    var open' := [start, Token(BlockMappingStart, k, k), Token(Key, k, k), word,
                  Token(Value, Mark(2, 0, 2), Mark(3, 0, 3))];
    var s3 := s2.(input := EXAMPLE[2..], mark := Mark(3, 0, 3), made := open', keys := [key.(possible := false)],
                  indents := [-1], indent := 1);
    assert FetchNext(s2) == Go(s3) by {
      ApproachMoves(s2);
      assert s2.input[1..] == s3.input;
      ExampleValue(s2.(input := s3.input), key, open');
    }
    ExampleEnd(s3);
    assert Fetches(s2, 3) == Fetches(s3, 2);
  }

  lemma {:induction false} ExampleEnd(s3: Scan)
    requires s3.started && s3.input == EXAMPLE[2..] && s3.mark == Mark(3, 0, 3) && s3.flow == 0 && s3.indent == 1
             && !s3.allowed
    requires |s3.keys| == 1 && !s3.keys[0].possible
    ensures Fetches(s3, 2) == Panic
  {
    var s4 := s3.(input := EXAMPLE[3..], mark := Mark(8, 1, 1),
                  made := s3.made + [Token(NodePart, Mark(4, 0, 4), Mark(8, 1, 1))]);
    assert FetchNext(s3) == Go(s4) by {
      ApproachMoves(s3);
      assert s3.input[1..] == s4.input;
    }
    assert FetchNext(s4) == Panic by { ApproachMoves(s4); }
    assert Fetches(s4, 1) == Panic;
  }

  lemma {:induction false} ExampleValue(s: Scan, key: SimpleKey, made: seq<Token>)
    requires |s.made| == 2 && s.keys == [key] && key == SimpleKey(true, false, 1, Mark(1, 0, 1)) && s.flow == 0
    requires s.indent == -1 && s.indents == [] && !s.allowed
    requires made == [s.made[0], Token(BlockMappingStart, key.mark, key.mark), Token(Key, key.mark, key.mark),
                      s.made[1], Token(Value, Mark(2, 0, 2), Mark(3, 0, 3))]
    ensures FetchValue(s, EXAMPLE[1]) == Go(s.(mark := Mark(3, 0, 3), made := made, keys := [key.(possible := false)],
                                               indents := [-1], indent := 1))
  {
    var k := key.mark;
    var with := InsertAt(s.made, 1, Token(Key, k, k));
    assert with == [s.made[0], Token(Key, k, k), s.made[1]];
    assert InsertAt(with, 1, Token(BlockMappingStart, k, k)) + [Token(Value, Mark(2, 0, 2), Mark(3, 0, 3))] == made;
    assert s.keys[0 := key.(possible := false)] == [key.(possible := false)];
  }

  // ---------- fetching until the head is final ----------

  /** The end of the stream has been queued: nothing on an earlier line can still become a key. */
  predicate Settled(s: Scan) { s.started && s.input == [] && s.mark.column == 0 && s.parsed < |s.made| }

  lemma {:induction false} SettledHasNoKeys(s: Scan)
    requires Valid(s) && Settled(s) && Stale(s).Go?
    ensures !HeadMayBeKey(Stale(s).next)
  {
    StaleKeeps(s);
    forall i | 0 <= i < |s.keys| ensures !Stale(s).next.keys[i].possible {
      assert KeyOk(s.keys[i], s.made, s.parsed, s.mark);
    }
  }

  /** `yaml_parser_fetch_more_tokens`. */
  ghost function FetchMore(s: Scan): Outcome
    requires Valid(s)
    decreases |s.input|, if s.started then 0 else 1, if Settled(s) then 0 else 1
  {
    if s.parsed == |s.made| then
      FetchKeeps(s);
      (match FetchNext(s)
       case Go(r) => FetchMore(r)
       case other => other)
    else
      StaleKeeps(s);
      match Stale(s)
      case Go(r) =>
        if !HeadMayBeKey(r) then Go(r)
        else
          assert !Settled(s) by { if Settled(s) { SettledHasNoKeys(s); } }
          FetchKeeps(r);
          (match FetchNext(r)
           case Go(q) => FetchMore(q)
           case other => other)
      case other => other
  }

  /** `FetchMore` from `s` goes on from `t`, which is nearer the end of the stream. */
  ghost predicate Goes(s: Scan, t: Scan)
    requires Valid(s)
  {
    && Valid(t) && FetchMore(s) == FetchMore(t)
    && (|t.input| < |s.input| || (t.input == s.input && (!s.started || t.started) &&
        ((!s.started && t.started) || (Settled(t) && !Settled(s)))))
  }

  /** The state from which the next token is fetched: `s` itself when its queue is empty. */
  ghost predicate Asks(s: Scan, r: Scan) {
    if s.parsed == |s.made| then r == s else Stale(s) == Go(r) && HeadMayBeKey(r)
  }

  lemma {:induction false} MoreNext(s: Scan, r: Scan)
    requires Valid(s) && Asks(s, r)
    ensures Valid(r)
    ensures FetchNext(r).Go? ==> Goes(s, FetchNext(r).next)
    ensures !FetchNext(r).Go? ==> FetchMore(s) == FetchNext(r)
  {
    if s.parsed != |s.made| {
      StaleKeeps(s);
      assert !Settled(s) by { if Settled(s) { SettledHasNoKeys(s); } }
    }
    FetchKeeps(r);
  }

  lemma {:induction false} MoreStops(s: Scan)
    requires Valid(s) && s.parsed < |s.made|
    ensures Stale(s).Go? && !HeadMayBeKey(Stale(s).next) ==> FetchMore(s) == Stale(s)
    ensures !Stale(s).Go? ==> FetchMore(s) == Stale(s)
  {
  }

  /** The token at the head is final: no key can be inserted before it any more. */
  lemma {:induction false} FetchMoreKeeps(s: Scan)
    requires Valid(s)
    ensures FetchMore(s).Go? ==> var r := FetchMore(s).next;
              Valid(r) && Later(s, r) && r.parsed < |r.made| && !HeadMayBeKey(r)
    decreases |s.input|, if s.started then 0 else 1, if Settled(s) then 0 else 1
  {
    if s.parsed == |s.made| {
      AskedKeeps(s, s);
    } else {
      StaleKeeps(s);
      MoreStops(s);
      if Stale(s).Go? && HeadMayBeKey(Stale(s).next) {
        AskedKeeps(s, Stale(s).next);
      }
    }
  }

  lemma {:induction false} AskedKeeps(s: Scan, r: Scan)
    requires Valid(s) && Asks(s, r)
    ensures FetchMore(s).Go? ==> var q := FetchMore(s).next;
              Valid(q) && Later(s, q) && q.parsed < |q.made| && !HeadMayBeKey(q)
    decreases |s.input|, if s.started then 0 else 1, if Settled(s) then 0 else 1, 0
  {
    MoreNext(s, r);
    if FetchNext(r).Go? {
      var q := FetchNext(r).next;
      FetchMoreKeeps(q);
      if s.parsed != |s.made| { StaleKeeps(s); }
      FetchKeeps(r);
      LaterTwice(r, q, FetchMore(q));
      LaterTwice(s, r, FetchMore(q));
    }
  }

  lemma {:induction false} TakeKeeps(s: Scan)
    requires Valid(s) && s.parsed < |s.made| && !HeadMayBeKey(s)
    ensures Valid(Take(s))
  {
    forall i | 0 <= i < |s.keys| ensures KeyOk(s.keys[i], s.made, s.parsed + 1, s.mark) {
      assert KeyOk(s.keys[i], s.made, s.parsed, s.mark);
    }
  }

  // ---------- whole runs ----------

  /** The parser peeks and takes `n` tokens. */
  ghost function Taken(s: Scan, n: nat): Outcome
    requires Valid(s)
    decreases n
  {
    if n == 0 then Go(s)
    else
      FetchMoreKeeps(s);
      match FetchMore(s)
      case Go(r) => TakeKeeps(r); Taken(Take(r), n - 1)
      case other => other
  }

  /**
   Over every run: the invariant holds throughout, tokens already taken never change, and in
   what the parser has received every prefix has at least as many block starts as ends.
   */
  lemma {:induction false} RunKeeps(s: Scan, n: nat)
    requires Valid(s)
    ensures Taken(s, n).Go? ==> var r := Taken(s, n).next;
              && Valid(r) && r.parsed == s.parsed + n && r.made[..s.parsed] == s.made[..s.parsed]
              && Balanced(r.made[..r.parsed])
    decreases n
  {
    if n == 0 {
      PrefixBalanced(s.made, s.parsed);
    } else {
      FetchMoreKeeps(s);
      if FetchMore(s).Go? {
        var r := FetchMore(s).next;
        TakeKeeps(r);
        RunKeeps(Take(r), n - 1);
        if Taken(s, n).Go? {
          PrefixTwice(s.made, r.made, Taken(s, n).next.made, s.parsed, r.parsed + 1);
        }
      }
    }
  }

  lemma {:induction false} PrefixTwice(a: seq<Token>, b: seq<Token>, c: seq<Token>, m: nat, n: nat)
    requires m <= n <= |b| && n <= |c| && m <= |a| && b[..m] == a[..m] && c[..n] == b[..n]
    ensures c[..m] == a[..m]
  {
    assert c[..m] == c[..n][..m] && b[..m] == b[..n][..m];
  }

  lemma {:induction false} PrefixBalanced(h: seq<Token>, p: nat)
    requires Balanced(h) && p <= |h|
    ensures Balanced(h[..p])
  {
    forall n | 0 <= n <= p ensures Depth(h[..p][..n]) >= 0 {
      assert h[..p][..n] == h[..n];
    }
  }

  lemma {:induction false} InitialValid(input: seq<Lexeme>, eof: Mark)
    requires Readable(input, Mark(0, 0, 0)) && eof.column >= 0
    ensures Valid(Initial(input, eof))
  {
    var s := Initial(input, eof);
    assert s.indents + [s.indent] == [-1];
  }
}
