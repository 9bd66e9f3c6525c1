/** From annotations to the load balancer's route expression, whatever order the annotations are read in. */
module Routes {
  import opened Wrappers
  import opened Text
  import opened Annotations

  /** Which expressions compile, what counts as white space, and upper-casing are left to the platform. */
  datatype Platform = Platform(compiles: string -> bool, isSpace: char -> bool, upper: string -> string)

  datatype Kind = Host | Path | Prefix | Method | Header

  datatype Part = Part(kind: Kind, header: string, value: string, regex: bool)

  const HOST := "host"
  const PATH := "path"
  const PREFIX := "prefix"
  const METHODS := "methods"
  const HEADERS := "headers"

  // ---------- annotations to parts ----------

  function TrimBars(s: string): string {
    if s != [] && s[0] == '|' then TrimBars(s[1..])
    else if s != [] && s[|s| - 1] == '|' then TrimBars(s[..|s| - 1])
    else s
  }

  predicate IsRegexp(s: string) { s != [] && s[0] == '|' && s[|s| - 1] == '|' }

  /** The part a value makes; none if it is an expression that does not compile. */
  function Made(p: Platform, kind: Kind, header: string, value: string): Option<Part> {
    if !IsRegexp(value) then Some(Part(kind, header, value, false))
    else if p.compiles(TrimBars(value)) then Some(Part(kind, header, TrimBars(value), true))
    else None
  }

  function AsSeq<T>(o: Option<T>): seq<T> { match o case Some(x) => [x] case None => [] }

  function Words(p: Platform, s: string, word: string): seq<string> {
    if s == [] then (if word == [] then [] else [word])
    else if p.isSpace(s[0]) then (if word == [] then [] else [word]) + Words(p, s[1..], [])
    else if s[0] == ';' then Words(p, s[1..], word)
    else Words(p, s[1..], word + [s[0]])
  }

  function HeaderPart(p: Platform, word: string): Option<Part> {
    var i := Index(word, '=');
    if i < 0 then None else Made(p, Header, word[..i], word[i + 1..])
  }

  function HeaderParts(p: Platform, words: seq<string>): seq<Part> {
    if words == [] then [] else HeaderParts(p, words[..|words| - 1]) + AsSeq(HeaderPart(p, words[|words| - 1]))
  }

  function MethodParts(p: Platform, words: seq<string>): seq<Part> {
    if words == [] then []
    else MethodParts(p, words[..|words| - 1]) + AsSeq(Made(p, Method, [], p.upper(words[|words| - 1])))
  }

  /** What one annotation contributes. */
  function Block(p: Platform, key: string, value: string): seq<Part> {
    if key == HEADERS then HeaderParts(p, Words(p, value, []))
    else if key == METHODS then MethodParts(p, Words(p, value, []))
    else if key == HOST then AsSeq(Made(p, Host, [], value))
    else if key == PATH then AsSeq(Made(p, Path, [], value))
    else if key == PREFIX then AsSeq(Made(p, Prefix, [], value))
    else []
  }

  function Parts(p: Platform, es: seq<Entry>): seq<Part> {
    if es == [] then [] else Parts(p, es[..|es| - 1]) + Block(p, es[|es| - 1].0, es[|es| - 1].1)
  }

  function Delete(parts: seq<Part>, kind: Kind): seq<Part> {
    if parts == [] then []
    else
      var last := parts[|parts| - 1];
      Delete(parts[..|parts| - 1], kind) + (if last.kind != kind then [last] else [])
  }

  /** A rule's own host and path, where it has them, replace those of the annotations. */
  function Ingressed(p: Platform, parts: seq<Part>, host: string, path: string): seq<Part> {
    var a := if host != [] then Delete(parts, Host) + AsSeq(Made(p, Host, [], host)) else parts;
    if path != [] then Delete(a, Path) + AsSeq(Made(p, Path, [], path)) else a
  }

  /** How an ingress applies to a service port: not at all, by a rule, or as its default backend. */
  datatype Ingress = NoRule | Rule(host: string, path: string) | DefaultBackend

  function Applied(p: Platform, parts: seq<Part>, ingress: Ingress): seq<Part> {
    match ingress
    case NoRule => parts
    case Rule(host, path) => Ingressed(p, parts, host, path)
    case DefaultBackend => []
  }

  // ---------- parts to the route ----------

  datatype RoutePart = RoutePart(part: string, val: string, header: string)

  datatype Route = Route(host: Option<RoutePart>, path: Option<RoutePart>, methods: seq<RoutePart>,
                         headers: seq<RoutePart>)

  datatype Slots = Slots(route: Route, prefix: bool)

  const BLANK := Slots(Route(None, None, [], []), false)

  function PartName(kind: Kind, regex: bool): string {
    match kind
    case Host => if regex then "HostRegexp" else "Host"
    case Path => if regex then "PathRegexp" else "Path"
    case Prefix => "PathRegexp"
    case Method => if regex then "MethodRegexp" else "Method"
    case Header => if regex then "HeaderRegexp" else "Header"
  }

  function Rendered(part: Part): RoutePart {
    RoutePart(PartName(part.kind, part.regex), if part.kind.Prefix? then part.value + ".*" else part.value,
              if part.kind.Header? then part.header else [])
  }

  function Step(s: Slots, part: Part): Slots {
    var r := Rendered(part);
    match part.kind
    case Host => s.(route := s.route.(host := Some(r)))
    case Path => if s.prefix then s else s.(route := s.route.(path := Some(r)))
    case Prefix => Slots(s.route.(path := Some(r)), true)
    case Method => s.(route := s.route.(methods := s.route.methods + [r]))
    case Header => s.(route := s.route.(headers := s.route.headers + [r]))
  }

  function Placed(s: Slots, parts: seq<Part>): Slots {
    if parts == [] then s else Step(Placed(s, parts[..|parts| - 1]), parts[|parts| - 1])
  }

  const ANY_PATH := Route(None, Some(RoutePart("PathRegexp", ".*", [])), [], [])

  function RouteOf(parts: seq<Part>): Route { if parts == [] then ANY_PATH else Placed(BLANK, parts).route }

  function PartText(r: RoutePart): string {
    r.part + "(" + (if r.header != [] then "`" + r.header + "`, `" + r.val + "`" else "`" + r.val + "`") + ")"
  }

  function Texts(rs: seq<RoutePart>): seq<string> {
    if rs == [] then [] else Texts(rs[..|rs| - 1]) + [PartText(rs[|rs| - 1])]
  }

  function Pieces(r: Route): seq<string> {
    Texts(AsSeq(r.host)) + Texts(AsSeq(r.path)) + Texts(r.methods) + Texts(r.headers)
  }

  function Joined(parts: seq<string>): string {
    if parts == [] then []
    else if |parts| == 1 then parts[0]
    else Joined(parts[..|parts| - 1]) + " && " + parts[|parts| - 1]
  }

  function RouteText(r: Route): string { Joined(Pieces(r)) }

  // ---------- the route by key, not by order ----------

  function FindKey(es: seq<Entry>, k: string): Option<string> {
    if es == [] then None else if es[|es| - 1].0 == k then Some(es[|es| - 1].1) else FindKey(es[..|es| - 1], k)
  }

  function One(p: Platform, kind: Kind, value: Option<string>): Option<RoutePart> {
    if value.None? then None
    else
      match Made(p, kind, [], value.value)
      case Some(part) => Some(Rendered(part))
      case None => None
  }

  function RenderedAll(parts: seq<Part>): seq<RoutePart> {
    if parts == [] then [] else RenderedAll(parts[..|parts| - 1]) + [Rendered(parts[|parts| - 1])]
  }

  function Many(p: Platform, key: string, value: Option<string>): seq<RoutePart> {
    if value.None? then [] else RenderedAll(Block(p, key, value.value))
  }

  /** The route of these values: a prefix beats a path. */
  function ByKey(p: Platform, host: Option<string>, path: Option<string>, prefix: Option<string>,
                 methods: Option<string>,
                 headers: Option<string>): Slots {
    var pre := One(p, Prefix, prefix);
    Slots(Route(One(p, Host, host), if pre.Some? then pre else One(p, Path, path), Many(p, METHODS, methods),
                Many(p, HEADERS, headers)),
          pre.Some?)
  }

  function OfMap(p: Platform, an: map<string, string>): Slots {
    ByKey(p, Get(an, HOST), Get(an, PATH), Get(an, PREFIX), Get(an, METHODS), Get(an, HEADERS))
  }

  function OfEntries(p: Platform, es: seq<Entry>): Slots {
    ByKey(p, FindKey(es, HOST), FindKey(es, PATH), FindKey(es, PREFIX), FindKey(es, METHODS), FindKey(es, HEADERS))
  }

  lemma {:induction false} PlacedAppend(s: Slots, a: seq<Part>, b: seq<Part>)
    ensures Placed(s, a + b) == Placed(Placed(s, a), b)
    decreases |b|
  {
    if b == [] {
      assert a + b == a;
    } else {
      assert (a + b)[..|a + b| - 1] == a + b[..|b| - 1];
      PlacedAppend(s, a, b[..|b| - 1]);
    }
  }

  lemma {:induction false} PlacedOne(s: Slots, part: Part)
    ensures Placed(s, [part]) == Step(s, part)
  {
    assert [part][..0] == [];
  }

  lemma {:induction false} PlacedMany(s: Slots, parts: seq<Part>, kind: Kind)
    requires (kind.Method? || kind.Header?) && forall i :: 0 <= i < |parts| ==> parts[i].kind == kind
    ensures var r := s.route;
            Placed(s, parts) == s.(route := if kind.Method? then r.(methods := r.methods + RenderedAll(parts))
                                            else r.(headers := r.headers + RenderedAll(parts)))
    decreases |parts|
  {
    var r := s.route;
    if parts == [] {
      assert r.methods + [] == r.methods && r.headers + [] == r.headers;
    } else {
      PlacedMany(s, parts[..|parts| - 1], kind);
    }
  }

  lemma {:induction false} BlockKinds(p: Platform, words: seq<string>)
    ensures forall i :: 0 <= i < |HeaderParts(p, words)| ==> HeaderParts(p, words)[i].kind == Header
    ensures forall i :: 0 <= i < |MethodParts(p, words)| ==> MethodParts(p, words)[i].kind == Method
    decreases |words|
  {
    if words != [] {
      BlockKinds(p, words[..|words| - 1]);
    }
  }

  lemma {:induction false} FindKeyIs(es: seq<Entry>, k: string)
    ensures FindKey(es, k) == None <==> forall i :: 0 <= i < |es| ==> es[i].0 != k
    ensures FindKey(es, k).Some? ==> exists i :: 0 <= i < |es| && es[i].0 == k && es[i].1 == FindKey(es, k).value
    decreases |es|
  {
    if es != [] {
      var init := es[..|es| - 1];
      FindKeyIs(init, k);
      forall i | 0 <= i < |init| ensures init[i] == es[i] {}
    }
  }

  lemma {:induction false} FindKeyIsGet(es: seq<Entry>, an: map<string, string>, k: string)
    requires Enumerates(es, an)
    ensures FindKey(es, k) == Get(an, k)
  {
    FindKeyIs(es, k);
  }

  ghost predicate DistinctKeys(es: seq<Entry>) { forall i, j :: 0 <= i < j < |es| ==> es[i].0 != es[j].0 }

  /** Adding one annotation's block is adding its key. */
  lemma {:induction false} BlockPlaced(p: Platform, init: seq<Entry>, e: Entry)
    requires FindKey(init, e.0) == None
    ensures Placed(OfEntries(p, init), Block(p, e.0, e.1)) == OfEntries(p, init + [e])
  {
    var s := OfEntries(p, init);
    var es := init + [e];
    assert es[..|es| - 1] == init;
    if e.0 == HEADERS || e.0 == METHODS {
      BlockKinds(p, Words(p, e.1, []));
      var kind := if e.0 == HEADERS then Header else Method;
      PlacedMany(s, Block(p, e.0, e.1), kind);
      var all := RenderedAll(Block(p, e.0, e.1));
      assert [] + all == all;
    } else if e.0 == HOST || e.0 == PATH || e.0 == PREFIX {
      SinglePlaced(p, init, e);
    }
  }

  lemma {:induction false} SinglePlaced(p: Platform, init: seq<Entry>, e: Entry)
    requires FindKey(init, e.0) == None && (e.0 == HOST || e.0 == PATH || e.0 == PREFIX)
    ensures Placed(OfEntries(p, init), Block(p, e.0, e.1)) == OfEntries(p, init + [e])
  {
    var s := OfEntries(p, init);
    var es := init + [e];
    assert es[..|es| - 1] == init;
    var kind := if e.0 == HOST then Host else if e.0 == PATH then Path else Prefix;
    var made := Made(p, kind, [], e.1);
    assert Block(p, e.0, e.1) == AsSeq(made);
    if made.Some? {
      PlacedOne(s, made.value);
    }
  }

  lemma {:induction false} PlacedIsByKey(p: Platform, es: seq<Entry>)
    requires DistinctKeys(es)
    ensures Placed(BLANK, Parts(p, es)) == OfEntries(p, es)
    decreases |es|
  {
    if es != [] {
      var init, e := es[..|es| - 1], es[|es| - 1];
      PlacedIsByKey(p, init);
      FindKeyIs(init, e.0);
      PlacedAppend(BLANK, Parts(p, init), Block(p, e.0, e.1));
      BlockPlaced(p, init, e);
      assert es == init + [e];
    }
  }

  /** In any order, the parts land in the slots their keys call for. */
  lemma {:induction false} PlacedAnyOrder(p: Platform, es: seq<Entry>, an: map<string, string>)
    requires Enumerates(es, an)
    ensures Placed(BLANK, Parts(p, es)) == OfMap(p, an)
  {
    PlacedIsByKey(p, es);
    FindKeyIsGet(es, an, HOST);
    FindKeyIsGet(es, an, PATH);
    FindKeyIsGet(es, an, PREFIX);
    FindKeyIsGet(es, an, METHODS);
    FindKeyIsGet(es, an, HEADERS);
  }

  /** Every part leaves a trace. */
  lemma {:induction false} PlacedBlank(parts: seq<Part>)
    ensures Placed(BLANK, parts) == BLANK <==> parts == []
    ensures Placed(BLANK, parts).prefix ==> Placed(BLANK, parts).route.path.Some?
    decreases |parts|
  {
    if parts != [] {
      PlacedBlank(parts[..|parts| - 1]);
    }
  }

  // ---------- the ingress rule ----------

  function WithoutHost(s: Slots): Slots { s.(route := s.route.(host := None)) }

  function WithoutPath(s: Slots): Slots { if s.prefix then s else s.(route := s.route.(path := None)) }

  lemma {:induction false} PlacedSnoc(s: Slots, parts: seq<Part>, part: Part)
    ensures Placed(s, parts + [part]) == Step(Placed(s, parts), part)
  {
    assert (parts + [part])[..|parts|] == parts;
  }

  lemma {:induction false} DeleteHost(parts: seq<Part>)
    ensures Placed(BLANK, Delete(parts, Host)) == WithoutHost(Placed(BLANK, parts))
    decreases |parts|
  {
    if parts != [] {
      var init, last := parts[..|parts| - 1], parts[|parts| - 1];
      DeleteHost(init);
      PlacedSnoc(BLANK, Delete(init, Host), last);
      assert Delete(init, Host) + [] == Delete(init, Host);
    }
  }

  lemma {:induction false} DeletePath(parts: seq<Part>)
    ensures Placed(BLANK, Delete(parts, Path)) == WithoutPath(Placed(BLANK, parts))
    decreases |parts|
  {
    if parts != [] {
      var init, last := parts[..|parts| - 1], parts[|parts| - 1];
      DeletePath(init);
      PlacedSnoc(BLANK, Delete(init, Path), last);
      assert Delete(init, Path) + [] == Delete(init, Path);
    }
  }

  /** The slots after a rule's host and path replaced those of the annotations; a prefix still beats a path. */
  function Overridden(p: Platform, s: Slots, host: string, path: string): Slots {
    var a := if host != [] then Placed(WithoutHost(s), AsSeq(Made(p, Host, [], host))) else s;
    if path != [] then Placed(WithoutPath(a), AsSeq(Made(p, Path, [], path))) else a
  }

  lemma {:induction false} PlacedIngressed(p: Platform, parts: seq<Part>, host: string, path: string)
    ensures Placed(BLANK, Ingressed(p, parts, host, path)) == Overridden(p, Placed(BLANK, parts), host, path)
  {
    DeleteHost(parts);
    PlacedAppend(BLANK, Delete(parts, Host), AsSeq(Made(p, Host, [], host)));
    var a := if host != [] then Delete(parts, Host) + AsSeq(Made(p, Host, [], host)) else parts;
    DeletePath(a);
    PlacedAppend(BLANK, Delete(a, Path), AsSeq(Made(p, Path, [], path)));
  }

  /** The route after an ingress depends on the slots the annotations fill, and on nothing else of their order. */
  lemma {:induction false} SameSlots(p: Platform, a: seq<Part>, b: seq<Part>, ingress: Ingress)
    requires Placed(BLANK, a) == Placed(BLANK, b)
    ensures RouteOf(Applied(p, a, ingress)) == RouteOf(Applied(p, b, ingress))
  {
    var x, y := Applied(p, a, ingress), Applied(p, b, ingress);
    if ingress.Rule? {
      PlacedIngressed(p, a, ingress.host, ingress.path);
      PlacedIngressed(p, b, ingress.host, ingress.path);
    }
    PlacedBlank(x);
    PlacedBlank(y);
  }

  /** Two orders of the same annotations of a port give the same route under every ingress. */
  lemma {:induction false} SameRoute(p: Platform, es: seq<Entry>, fs: seq<Entry>, an: map<string, string>,
                                     ingress: Ingress)
    requires Enumerates(es, an) && Enumerates(fs, an)
    ensures RouteOf(Applied(p, Parts(p, es), ingress)) == RouteOf(Applied(p, Parts(p, fs), ingress))
  {
    PlacedAnyOrder(p, es, an);
    PlacedAnyOrder(p, fs, an);
    SameSlots(p, Parts(p, es), Parts(p, fs), ingress);
  }

  /** Every key of the space has one path element after it. */
  ghost predicate OneSegmentKeys(anno: map<string, string>, space: string) {
    forall k :: k in anno && InSpace(k, space) ==> OneSegment(k, space)
  }

  /** The keys a route is made of do not depend on the order in which the service's annotations were read. */
  lemma {:induction false} SameOfMap(p: Platform, es: seq<Entry>, fs: seq<Entry>, anno: map<string, string>,
                                     space: string, port: string)
    requires Enumerates(es, anno) && Enumerates(fs, anno) && OneSegmentKeys(anno, space)
    ensures OfMap(p, Folded(es, space, port)) == OfMap(p, Folded(fs, space, port))
  {
    OneSegmentDistinct(anno, space);
    AnyOrder(es, fs, anno, space, port, HOST);
    AnyOrder(es, fs, anno, space, port, PATH);
    AnyOrder(es, fs, anno, space, port, PREFIX);
    AnyOrder(es, fs, anno, space, port, METHODS);
    AnyOrder(es, fs, anno, space, port, HEADERS);
  }

  /**
   The whole way, from the raw annotations of a service to the route of a port: for every two
   orders in which they are read, every two orders in which what is left of them is read, and
   every ingress, the route is the same.
   */
  lemma {:induction false} SameTranslation(p: Platform, anno: map<string, string>, space: string, port: string,
                                           ingress: Ingress,
                                           es: seq<Entry>, fs: seq<Entry>, es': seq<Entry>, fs': seq<Entry>)
    requires Enumerates(es, anno) && Enumerates(fs, anno) && OneSegmentKeys(anno, space)
    requires Enumerates(es', Folded(es, space, port)) && Enumerates(fs', Folded(fs, space, port))
    ensures RouteOf(Applied(p, Parts(p, es'), ingress)) == RouteOf(Applied(p, Parts(p, fs'), ingress))
  {
    PlacedAnyOrder(p, es', Folded(es, space, port));
    PlacedAnyOrder(p, fs', Folded(fs, space, port));
    SameOfMap(p, es, fs, anno, space, port);
    SameSlots(p, Parts(p, es'), Parts(p, fs'), ingress);
  }

  /** A prefix that is a valid expression, or none, decides the path, in every order and under every rule. */
  lemma {:induction false} PrefixWins(p: Platform, es: seq<Entry>, an: map<string, string>, host: string, path: string)
    requires Enumerates(es, an) && PREFIX in an && Made(p, Prefix, [], an[PREFIX]).Some?
    ensures RouteOf(Ingressed(p, Parts(p, es), host, path)).path
            == Some(RoutePart("PathRegexp", Made(p, Prefix, [], an[PREFIX]).value.value + ".*", []))
  {
    PlacedAnyOrder(p, es, an);
    MapPrefix(p, an);
    PlacedIngressed(p, Parts(p, es), host, path);
    OverrideKeepsPrefix(p, OfMap(p, an), host, path);
    PlacedBlank(Ingressed(p, Parts(p, es), host, path));
  }

  lemma {:induction false} MapPrefix(p: Platform, an: map<string, string>)
    requires PREFIX in an && Made(p, Prefix, [], an[PREFIX]).Some?
    ensures OfMap(p, an).prefix
    ensures OfMap(p, an).route.path
            == Some(RoutePart("PathRegexp", Made(p, Prefix, [], an[PREFIX]).value.value + ".*", []))
  {
    var made := Made(p, Prefix, [], an[PREFIX]).value;
    assert Rendered(made) == RoutePart("PathRegexp", made.value + ".*", []);
  }

  lemma {:induction false} OverrideKeepsPrefix(p: Platform, s: Slots, host: string, path: string)
    requires s.prefix
    ensures Overridden(p, s, host, path).prefix && Overridden(p, s, host, path).route.path == s.route.path
  {
    var madeHost := Made(p, Host, [], host);
    if host != [] && madeHost.Some? {
      PlacedOne(WithoutHost(s), madeHost.value);
    }
    var a := if host != [] then Placed(WithoutHost(s), AsSeq(madeHost)) else s;
    var madePath := Made(p, Path, [], path);
    if path != [] && madePath.Some? {
      PlacedOne(WithoutPath(a), madePath.value);
    }
  }

  // ---------- the loops ----------

  lemma {:induction false} NextHeader(p: Platform, words: seq<string>, i: nat)
    requires i < |words|
    ensures HeaderParts(p, words[..i + 1]) == HeaderParts(p, words[..i]) + AsSeq(HeaderPart(p, words[i]))
  {
    assert words[..i + 1][..i] == words[..i];
  }

  lemma {:induction false} NextMethod(p: Platform, words: seq<string>, i: nat)
    requires i < |words|
    ensures MethodParts(p, words[..i + 1]) == MethodParts(p, words[..i]) + AsSeq(Made(p, Method, [], p.upper(words[i])))
  {
    assert words[..i + 1][..i] == words[..i];
  }

  /** The loops over the words of the headers and methods annotations. */
  method AddHeaders(p: Platform, before: seq<Part>, words: seq<string>) returns (parts: seq<Part>)
    ensures parts == before + HeaderParts(p, words)
  {
    parts := before;
    for i := 0 to |words|
      invariant parts == before + HeaderParts(p, words[..i])
    {
      NextHeader(p, words, i);
      var part := HeaderPart(p, words[i]);
      if part.Some? { parts := parts + [part.value]; }
    }
    assert words[..|words|] == words;
  }

  method AddMethods(p: Platform, before: seq<Part>, words: seq<string>) returns (parts: seq<Part>)
    ensures parts == before + MethodParts(p, words)
  {
    parts := before;
    for i := 0 to |words|
      invariant parts == before + MethodParts(p, words[..i])
    {
      NextMethod(p, words, i);
      var part := Made(p, Method, [], p.upper(words[i]));
      if part.Some? { parts := parts + [part.value]; }
    }
    assert words[..|words|] == words;
  }

  method AddBlock(p: Platform, before: seq<Part>, key: string, value: string) returns (parts: seq<Part>)
    ensures parts == before + Block(p, key, value)
  {
    if key == HEADERS {
      parts := AddHeaders(p, before, Words(p, value, []));
    } else if key == METHODS {
      parts := AddMethods(p, before, Words(p, value, []));
    } else {
      parts := before + Block(p, key, value);
    }
  }

  /** The loop over the annotations, in whatever order they come. */
  method NewParts(p: Platform, an: map<string, string>) returns (parts: seq<Part>)
    ensures exists es :: Enumerates(es, an) && parts == Parts(p, es)
  {
    parts := [];
    var rest := an.Keys;
    ghost var order: seq<Entry> := [];
    while rest != {}
      invariant rest <= an.Keys && parts == Parts(p, order) && Enumerates(order, an - rest)
      decreases |rest|
    {
      var key :| key in rest;
      EnumeratesNext(order, an, rest, key);
      order := order + [(key, an[key])];
      assert order[..|order| - 1] + [(key, an[key])] == order;
      parts := AddBlock(p, parts, key, an[key]);
      rest := rest - {key};
    }
    assert an - {} == an;
  }

  /** The loop over the parts, filling the slots of the route. */
  method NewRoute(parts: seq<Part>) returns (r: Route)
    ensures r == RouteOf(parts)
  {
    if |parts| == 0 { return ANY_PATH; }
    r := Route(None, None, [], []);
    var prefix := false;
    for i := 0 to |parts|
      invariant Slots(r, prefix) == Placed(BLANK, parts[..i])
    {
      assert parts[..i + 1][..i] == parts[..i];
      var part := parts[i];
      var rp := RoutePart(PartName(part.kind, part.regex), part.value, []);
      match part.kind {
        case Host => r := r.(host := Some(rp));
        case Method => r := r.(methods := r.methods + [rp]);
        case Header =>
          rp := rp.(header := part.header);
          r := r.(headers := r.headers + [rp]);
        case Path => if !prefix { r := r.(path := Some(rp)); }
        case Prefix =>
          rp := rp.(val := part.value + ".*");
          r := r.(path := Some(rp));
          prefix := true;
      }
    }
    assert parts[..|parts|] == parts;
  }

  /** `routePartsFromIngress`, for an ingress that has been looked up. */
  method ApplyIngress(p: Platform, parts: seq<Part>, ingress: Ingress) returns (after: seq<Part>)
    ensures after == Applied(p, parts, ingress)
  {
    after := parts;
    match ingress {
      case NoRule =>
      case DefaultBackend => after := [];
      case Rule(host, path) =>
        if host != [] { after := Delete(after, Host) + AsSeq(Made(p, Host, [], host)); }
        if path != [] { after := Delete(after, Path) + AsSeq(Made(p, Path, [], path)); }
    }
  }

  /**
   The whole translation, whatever order either map is read in: it is a function of the
   annotations and the ingress.
   */
  method Expression(p: Platform, anno: map<string, string>, space: string, port: string, ingress: Ingress)
    returns (r: Route)
    ensures OneSegmentKeys(anno, space) ==>
              forall es, es' :: Enumerates(es, anno) && Enumerates(es', Folded(es, space, port))
                                ==> r == RouteOf(Applied(p, Parts(p, es'), ingress))
  {
    var an := PortAnnotations(anno, space, port);
    ghost var order :| Enumerates(order, anno) && an == Folded(order, space, port);
    var parts := NewParts(p, an);
    ghost var order' :| Enumerates(order', an) && parts == Parts(p, order');
    parts := ApplyIngress(p, parts, ingress);
    r := NewRoute(parts);
    if OneSegmentKeys(anno, space) {
      forall es, es' | Enumerates(es, anno) && Enumerates(es', Folded(es, space, port))
        ensures r == RouteOf(Applied(p, Parts(p, es'), ingress))
      {
        SameTranslation(p, anno, space, port, ingress, es, order, es', order');
      }
    }
  }

  method AppendTexts(before: seq<string>, rs: seq<RoutePart>) returns (parts: seq<string>)
    ensures parts == before + Texts(rs)
  {
    parts := before;
    for i := 0 to |rs|
      invariant parts == before + Texts(rs[..i])
    {
      assert rs[..i + 1][..i] == rs[..i];
      parts := parts + [PartText(rs[i])];
    }
    assert rs[..|rs|] == rs;
  }

  /** Building the text piece by piece. */
  method Render(r: Route) returns (text: string)
    ensures text == RouteText(r)
  {
    var parts: seq<string> := [];
    TextsOne(r.host);
    TextsOne(r.path);
    if r.host.Some? { parts := parts + [PartText(r.host.value)]; }
    if r.path.Some? { parts := parts + [PartText(r.path.value)]; }
    assert parts == Texts(AsSeq(r.host)) + Texts(AsSeq(r.path));
    parts := AppendTexts(parts, r.methods);
    parts := AppendTexts(parts, r.headers);
    text := Joined(parts);
  }

  lemma {:induction false} TextsOne(o: Option<RoutePart>)
    ensures Texts(AsSeq(o)) == if o.Some? then [PartText(o.value)] else []
  {
    if o.Some? {
      assert [o.value][..0] == [];
      assert Texts([]) == [];
    }
  }
}
