/** A route's text names its parts: it can be read back, and each part says what its annotation said. */
module RouteReading {
  import opened Wrappers
  import opened Text
  import opened Routes

  /** The host, the path, the methods and then the headers. */
  function Listed(r: Route): seq<RoutePart> { AsSeq(r.host) + AsSeq(r.path) + r.methods + r.headers }

  /** Values and header names stand between back quotes, so none may contain one; no name contains a parenthesis. */
  ghost predicate Quotable(r: RoutePart) { '(' !in r.part && '`' !in r.val && '`' !in r.header }

  ghost predicate AllQuotable(rs: seq<RoutePart>) { forall i :: 0 <= i < |rs| ==> Quotable(rs[i]) }

  function Drop(t: string, n: nat): string { if n <= |t| then t[n..] else [] }

  /** The text before and after the first `c`. */
  function Before(t: string, c: char): string { if Index(t, c) < 0 then t else t[..Index(t, c)] }

  function After(t: string, c: char): string { if Index(t, c) < 0 then [] else t[Index(t, c) + 1..] }

  /** One matcher at the head of `t`, and what stands after its closing parenthesis. */
  function ReadPart(t: string): (r: (RoutePart, string))
    ensures |r.1| <= |t| && (t != [] ==> |r.1| < |t|)
  {
    var name, first := Before(t, '('), Drop(After(t, '('), 1);
    var quoted, tail := Before(first, '`'), After(first, '`');
    if tail != [] && tail[0] == ',' then
      var second := Drop(tail, 3);
      (RoutePart(name, Before(second, '`'), quoted), Drop(After(second, '`'), 1))
    else (RoutePart(name, quoted, []), Drop(tail, 1))
  }

  /** The matchers of a text, four characters apart. */
  function ReadParts(t: string): seq<RoutePart>
    decreases |t|
  {
    if t == [] then [] else [ReadPart(t).0] + ReadParts(Drop(ReadPart(t).1, 4))
  }

  lemma {:induction false} CutAt(a: string, c: char, b: string)
    requires c !in a
    ensures Before(a + [c] + b, c) == a && After(a + [c] + b, c) == b
  {
    IndexFirst(a, c, b);
  }

  lemma {:induction false} PartBack(r: RoutePart, rest: string)
    requires Quotable(r)
    ensures ReadPart(PartText(r) + rest) == (r, rest)
  {
    var value := r.val + ['`'] + ([')'] + rest);
    var inner := if r.header == [] then ['`'] + value else ['`'] + (r.header + ['`'] + (", `" + value));
    var t := r.part + ['('] + inner;
    assert PartText(r) + rest == t;
    CutAt(r.part, '(', inner);
    CutAt(r.val, '`', [')'] + rest);
    CutAt(r.header, '`', ", `" + value);
  }

  lemma {:induction false} JoinedFront(first: string, parts: seq<string>)
    requires parts != []
    ensures Joined([first] + parts) == first + " && " + Joined(parts)
    decreases |parts|
  {
    var all, n := [first] + parts, |parts|;
    assert all[..|all| - 1] == [first] + parts[..n - 1];
    if n > 1 {
      JoinedFront(first, parts[..n - 1]);
    } else {
      assert parts[..0] == [] && [first] + [] == [first];
    }
  }

  lemma {:induction false} TextsAppend(a: seq<RoutePart>, b: seq<RoutePart>)
    ensures Texts(a + b) == Texts(a) + Texts(b)
    decreases |b|
  {
    if b == [] {
      assert a + b == a;
    } else {
      assert (a + b)[..|a + b| - 1] == a + b[..|b| - 1];
      TextsAppend(a, b[..|b| - 1]);
    }
  }

  lemma {:induction false} TextsFront(rs: seq<RoutePart>)
    requires rs != []
    ensures Texts(rs) == [PartText(rs[0])] + Texts(rs[1..])
  {
    assert [rs[0]][..0] == [] && Texts([]) == [];
    assert Texts([rs[0]]) == [PartText(rs[0])];
    assert rs == [rs[0]] + rs[1..];
    TextsAppend([rs[0]], rs[1..]);
  }

  lemma {:induction false} ReadFirst(r: RoutePart, rest: string)
    requires Quotable(r)
    ensures ReadParts(PartText(r) + rest) == [r] + ReadParts(Drop(rest, 4))
  {
    PartBack(r, rest);
  }

  lemma {:induction false} JoinedTexts(rs: seq<RoutePart>)
    requires |rs| > 1
    ensures Joined(Texts(rs)) == PartText(rs[0]) + (" && " + Joined(Texts(rs[1..])))
  {
    TextsFront(rs);
    TextsFront(rs[1..]);
    JoinedFront(PartText(rs[0]), Texts(rs[1..]));
  }

  lemma {:induction false} OneText(r: RoutePart)
    ensures Joined(Texts([r])) == PartText(r) + []
  {
    TextsFront([r]);
  }

  lemma {:induction false} PartsBack(rs: seq<RoutePart>)
    requires AllQuotable(rs)
    ensures ReadParts(Joined(Texts(rs))) == rs
    decreases |rs|
  {
    if |rs| == 1 {
      OneText(rs[0]);
      ReadFirst(rs[0], []);
      assert rs == [rs[0]] && rs == [rs[0]] + [];
    } else if rs != [] {
      var t := Joined(Texts(rs[1..]));
      JoinedTexts(rs);
      PartsBack(rs[1..]);
      ReadFirst(rs[0], " && " + t);
      assert (" && " + t)[4..] == t;
      assert rs == [rs[0]] + rs[1..];
    }
  }

  lemma {:induction false} PiecesListed(r: Route)
    ensures Pieces(r) == Texts(Listed(r))
  {
    TextsAppend(AsSeq(r.host) + AsSeq(r.path) + r.methods, r.headers);
    TextsAppend(AsSeq(r.host) + AsSeq(r.path), r.methods);
    TextsAppend(AsSeq(r.host), AsSeq(r.path));
  }

  /** Main result: a route's text, read back, is its host, path, methods and headers, in this order. */
  lemma {:induction false} TextReadsBack(r: Route)
    requires AllQuotable(Listed(r))
    ensures ReadParts(RouteText(r)) == Listed(r)
  {
    PiecesListed(r);
    PartsBack(Listed(r));
  }

  /** A back quote in a value is not escaped: one matcher's text is then that of two. */
  lemma {:induction false} BackQuoteSplits()
    ensures var one := Route(Some(RoutePart("Host", "a`) && Path(`b", [])), None, [], []);
            var two := Route(Some(RoutePart("Host", "a", [])), Some(RoutePart("Path", "b", [])), [], []);
            RouteText(one) == RouteText(two)
  {
    var host, path := RoutePart("Host", "a", []), RoutePart("Path", "b", []);
    var both := RoutePart("Host", "a`) && Path(`b", []);
    OneText(both);
    JoinedTexts([host, path]);
    OneText(path);
    assert AsSeq(Some(both)) + [] + [] + [] == [both];
    PiecesListed(Route(Some(both), None, [], []));
    PiecesListed(Route(Some(host), Some(path), [], []));
    assert [host, path][1..] == [path];
    BackQuoteTexts(both, host, path);
  }

  lemma {:induction false} BackQuoteTexts(both: RoutePart, host: RoutePart, path: RoutePart)
    requires host == RoutePart("Host", "a", []) && path == RoutePart("Path", "b", [])
    requires both == RoutePart("Host", "a`) && Path(`b", [])
    ensures PartText(both) + [] == PartText(host) + (" && " + (PartText(path) + []))
  {
  }

  // ---------- what an annotation's value says ----------

  /** No bar at either end. */
  ghost predicate Bare(e: string) { e == [] || (e[0] != '|' && e[|e| - 1] != '|') }

  /** `e` stands in `value` with nothing but bars around it. */
  ghost predicate Between(value: string, i: nat, e: string) {
    && i + |e| <= |value| && value[i..i + |e|] == e && Bare(e)
    && forall k :: 0 <= k < |value| && !(i <= k < i + |e|) ==> value[k] == '|'
  }

  /** A regular expression is what stands between all the bars at either end. */
  lemma {:induction false} TrimIs(value: string, i: nat, e: string)
    requires Between(value, i, e)
    ensures TrimBars(value) == e
    decreases |value|
  {
    if i > 0 {
      assert value[1..][i - 1..i - 1 + |e|] == e;
      TrimIs(value[1..], i - 1, e);
    } else if |e| < |value| {
      if e == [] {
        TrimIs(value[1..], 0, e);
      } else {
        assert value[0] == e[0];
        assert value[..|value| - 1][..|e|] == e;
        TrimIs(value[..|value| - 1], 0, e);
      }
    } else {
      assert value == e;
    }
  }

  /** The matcher of this name and value, or its regular form. */
  ghost predicate Says(part: Part, name: string, value: string, regex: bool) {
    Rendered(part).part == (if regex then name + "Regexp" else name) && Rendered(part).val == value
  }

  ghost function Name(kind: Kind): string {
    match kind
    case Host => "Host"
    case Path | Prefix => "Path"
    case Method => "Method"
    case Header => "Header"
  }

  lemma {:induction false} RenderedSays(kind: Kind, header: string, e: string, regex: bool)
    requires !kind.Prefix?
    ensures Says(Part(kind, header, e, regex), Name(kind), e, regex)
  {
  }

  lemma {:induction false} RenderedPrefix(e: string, regex: bool)
    ensures Says(Part(Prefix, [], e, regex), "Path", e + ".*", true)
  {
  }

  /**
   A plain value becomes the matcher of its kind; a value between bars, if it compiles, the
   regular form of that matcher with the bars taken off, and no matcher otherwise.
   */
  lemma {:induction false} ValueSays(p: Platform, kind: Kind, header: string, value: string, i: nat, e: string)
    requires !kind.Prefix? && Between(value, i, e)
    ensures var made, regex := Made(p, kind, header, value), value != [] && value[0] == '|' == value[|value| - 1];
            if !regex then made.Some? && Says(made.value, Name(kind), value, false)
            else if p.compiles(e) then made.Some? && Says(made.value, Name(kind), e, true)
            else made.None?
  {
    TrimIs(value, i, e);
    RenderedSays(kind, header, value, false);
    RenderedSays(kind, header, e, true);
  }

  /** A prefix is a regular path with anything after it, however its value is written. */
  lemma {:induction false} PrefixSays(p: Platform, value: string, i: nat, e: string)
    requires Between(value, i, e)
    ensures var made, regex := Made(p, Prefix, [], value), value != [] && value[0] == '|' == value[|value| - 1];
            if !regex then made.Some? && Says(made.value, "Path", value + ".*", true)
            else if p.compiles(e) then made.Some? && Says(made.value, "Path", e + ".*", true)
            else made.None?
  {
    TrimIs(value, i, e);
    RenderedPrefix(value, false);
    RenderedPrefix(e, true);
  }

  // ---------- what an ingress says ----------

  /** Without parts, and as the default backend of an ingress, a service gets every path. */
  lemma {:induction false} DefaultIsAnyPath(p: Platform, parts: seq<Part>)
    ensures RouteText(RouteOf(Applied(p, parts, DefaultBackend))) == "PathRegexp(`.*`)"
  {
    var all := RoutePart("PathRegexp", ".*", []);
    PiecesListed(ANY_PATH);
    assert AsSeq(None) + AsSeq(Some(all)) + [] + [] == [all];
    OneText(all);
    assert PartText(all) == "PathRegexp(`.*`)";
    assert PartText(all) + [] == PartText(all);
  }

  /** A rule's plain host is the route's host, and its plain path the route's path unless a prefix has it. */
  lemma {:induction false} RuleSays(p: Platform, parts: seq<Part>, host: string, path: string)
    requires !IsRegexp(host) && !IsRegexp(path)
    ensures var s, t := Placed(BLANK, parts), Placed(BLANK, Applied(p, parts, Rule(host, path)));
            && t.route.host == (if host != "" then Some(RoutePart("Host", host, "")) else s.route.host)
            && t.route.path == (if path != "" && !s.prefix then Some(RoutePart("Path", path, "")) else s.route.path)
            && t.route.methods == s.route.methods && t.route.headers == s.route.headers
            && t.prefix == s.prefix
  {
    var s := Placed(BLANK, parts);
    var h, q := Part(Host, [], host, false), Part(Path, [], path, false);
    PlacedIngressed(p, parts, host, path);
    PlacedOne(WithoutHost(s), h);
    var a := if host != [] then Placed(WithoutHost(s), [h]) else s;
    PlacedOne(WithoutPath(a), q);
  }

  // ---------- what an annotation's list says ----------

  /** Semicolons are dropped wherever they stand. */
  function Clean(t: string): string {
    if t == [] then [] else if t[0] == ';' then Clean(t[1..]) else [t[0]] + Clean(t[1..])
  }

  lemma {:induction false} WordsClean(p: Platform, t: string, word: string)
    requires !p.isSpace(';')
    ensures Words(p, t, word) == Words(p, Clean(t), word)
    decreases |t|
  {
    if t != [] && t[0] == ';' {
      WordsClean(p, t[1..], word);
    } else if t != [] {
      WordsClean(p, t[1..], if p.isSpace(t[0]) then [] else word + [t[0]]);
      assert Clean(t)[1..] == Clean(t[1..]);
    }
  }

  ghost predicate Space(p: Platform, gap: string) { forall i :: 0 <= i < |gap| ==> p.isSpace(gap[i]) }

  ghost predicate Word(p: Platform, word: string) {
    word != [] && forall i :: 0 <= i < |word| ==> !p.isSpace(word[i]) && word[i] != ';'
  }

  /** The words with white space before, after and between them. */
  function Spread(words: seq<string>, gaps: seq<string>): string
    requires |gaps| == |words| + 1
  {
    if words == [] then gaps[0] else gaps[0] + (words[0] + Spread(words[1..], gaps[1..]))
  }

  ghost predicate SpreadOk(p: Platform, words: seq<string>, gaps: seq<string>) {
    && |gaps| == |words| + 1
    && (forall i :: 0 <= i < |words| ==> Word(p, words[i]))
    && (forall i :: 0 <= i < |gaps| ==> Space(p, gaps[i]))
    && (forall i :: 0 < i < |words| ==> gaps[i] != [])
  }

  lemma {:induction false} SkipGap(p: Platform, gap: string, rest: string)
    requires Space(p, gap)
    ensures Words(p, gap + rest, []) == Words(p, rest, [])
    decreases |gap|
  {
    if gap == [] {
      assert gap + rest == rest;
    } else {
      assert (gap + rest)[1..] == gap[1..] + rest;
      SkipGap(p, gap[1..], rest);
    }
  }

  lemma {:induction false} TakeWord(p: Platform, done: string, word: string, rest: string)
    requires forall i :: 0 <= i < |word| ==> !p.isSpace(word[i]) && word[i] != ';'
    ensures Words(p, word + rest, done) == Words(p, rest, done + word)
    decreases |word|
  {
    if word == [] {
      assert word + rest == rest && done + word == done;
    } else {
      assert (word + rest)[1..] == word[1..] + rest;
      TakeWord(p, done + [word[0]], word[1..], rest);
      assert done + [word[0]] + word[1..] == done + word;
    }
  }

  lemma {:induction false} EndWord(p: Platform, word: string, gap: string, rest: string)
    requires Word(p, word) && Space(p, gap) && (gap != [] || rest == [])
    ensures Words(p, word + (gap + rest), []) == [word] + Words(p, rest, [])
  {
    TakeWord(p, [], word, gap + rest);
    assert [] + word == word;
    if gap == [] {
      assert gap + rest == [];
    } else {
      assert (gap + rest)[1..] == gap[1..] + rest;
      SkipGap(p, gap[1..], rest);
    }
  }

  /** Main result: the words of a list are what stands between its white space. */
  lemma {:induction false} WordsSpread(p: Platform, words: seq<string>, gaps: seq<string>)
    requires SpreadOk(p, words, gaps)
    ensures Words(p, Spread(words, gaps), []) == words
    decreases |words|
  {
    if words == [] {
      SkipGap(p, gaps[0], []);
      assert gaps[0] + [] == gaps[0];
    } else {
      var more, left := words[1..], gaps[1..];
      var rest := if more == [] then [] else more[0] + Spread(more[1..], left[1..]);
      assert Spread(more, left) == left[0] + rest;
      SkipGap(p, gaps[0], words[0] + Spread(more, left));
      EndWord(p, words[0], left[0], rest);
      WordsSpread(p, more, left);
      SkipGap(p, left[0], rest);
      assert words == [words[0]] + more;
    }
  }

  /** A header's name stands before the first equality sign and its value after it; other words make no matcher. */
  lemma {:induction false} HeaderSays(p: Platform, name: string, value: string, word: string)
    requires '=' !in name
    ensures HeaderPart(p, name + ['='] + value) == Made(p, Header, name, value)
    ensures '=' !in word ==> HeaderPart(p, word).None?
  {
    IndexFirst(name, '=', value);
    var t := name + ['='] + value;
    assert t[..|name|] == name && t[|name| + 1..] == value;
    var i := Index(word, '=');
  }

  /** The part a word of a list makes. */
  function WordPart(p: Platform, key: string, word: string): Option<Part> {
    if key == HEADERS then HeaderPart(p, word) else Made(p, Method, [], p.upper(word))
  }

  /** The word's place among the words that make a part. */
  function Rank(p: Platform, key: string, words: seq<string>, i: nat): nat
    requires i <= |words|
  {
    if i == 0 then 0 else Rank(p, key, words, i - 1) + if WordPart(p, key, words[i - 1]).Some? then 1 else 0
  }

  lemma {:induction false} RankPrefix(p: Platform, key: string, words: seq<string>, n: nat, i: nat)
    requires i <= n <= |words|
    ensures Rank(p, key, words[..n], i) == Rank(p, key, words, i)
  {
    if i > 0 {
      RankPrefix(p, key, words, n, i - 1);
    }
  }

  function ListParts(p: Platform, key: string, words: seq<string>): seq<Part> {
    if key == HEADERS then HeaderParts(p, words) else MethodParts(p, words)
  }

  lemma {:induction false} ListSays(p: Platform, key: string, words: seq<string>, i: nat)
    requires key == HEADERS || key == METHODS
    requires i < |words| && WordPart(p, key, words[i]).Some?
    ensures |ListParts(p, key, words)| == Rank(p, key, words, |words|)
    ensures Rank(p, key, words, i) < Rank(p, key, words, |words|)
    ensures ListParts(p, key, words)[Rank(p, key, words, i)] == WordPart(p, key, words[i]).value
    decreases |words|
  {
    var n := |words| - 1;
    ListLength(p, key, words);
    ListLength(p, key, words[..n]);
    RankPrefix(p, key, words, n, n);
    if i < n {
      ListSays(p, key, words[..n], i);
      RankPrefix(p, key, words, n, i);
    }
  }

  lemma {:induction false} ListLength(p: Platform, key: string, words: seq<string>)
    requires key == HEADERS || key == METHODS
    ensures |ListParts(p, key, words)| == Rank(p, key, words, |words|)
    decreases |words|
  {
    if words != [] {
      var n := |words| - 1;
      ListLength(p, key, words[..n]);
      RankPrefix(p, key, words, n, n);
    }
  }

  /** Main result: the k-th word that makes a part makes part k of its annotation, and there are no others. */
  lemma {:induction false} BlockSays(p: Platform, key: string, words: seq<string>, gaps: seq<string>, i: nat)
    requires (key == HEADERS || key == METHODS) && SpreadOk(p, words, gaps)
    requires i < |words| && WordPart(p, key, words[i]).Some?
    ensures var parts := Block(p, key, Spread(words, gaps));
            && |parts| == Rank(p, key, words, |words|) > Rank(p, key, words, i)
            && parts[Rank(p, key, words, i)] == WordPart(p, key, words[i]).value
  {
    WordsSpread(p, words, gaps);
    ListSays(p, key, words, i);
  }
}
