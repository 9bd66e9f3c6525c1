/** Which annotations apply to one service port, whatever order a map of them is read in. */
module Annotations {
  import opened Wrappers
  import opened Text

  type Entry = (string, string)

  /** `es` lists the map, each key once, in some order. */
  ghost predicate Enumerates(es: seq<Entry>, anno: map<string, string>) {
    && (forall i :: 0 <= i < |es| ==> es[i].0 in anno && anno[es[i].0] == es[i].1)
    && (forall i, j :: 0 <= i < j < |es| ==> es[i].0 != es[j].0)
    && forall k :: k in anno ==> exists i :: 0 <= i < |es| && es[i].0 == k
  }

  function Get(m: map<string, string>, k: string): Option<string> { if k in m then Some(m[k]) else None }

  // ---------- keys ----------

  function TrimSlashes(key: string): string {
    if key != [] && key[|key| - 1] == '/' then TrimSlashes(key[..|key| - 1]) else key
  }

  function AfterSlash(key: string): string {
    var i := Index(key, '/');
    if i < 0 then key else AfterSlash(key[i + 1..])
  }

  /** The last element of a slash-separated path. */
  function Base(key: string): string {
    if key == [] then "."
    else
      var t := TrimSlashes(key);
      if t == [] then "/" else AfterSlash(t)
  }

  predicate InSpace(key: string, space: string) { space <= key }

  /** A key with one path element after the key space. */
  predicate OneSegment(key: string, space: string) {
    |space| < |key| && key[..|space| + 1] == space + "/" && |key| > |space| + 1 && '/' !in key[|space| + 1..]
  }

  lemma {:induction false} BaseOfOneSegment(key: string, space: string)
    requires OneSegment(key, space)
    ensures Base(key) == key[|space| + 1..]
  {
    var seg := key[|space| + 1..];
    assert key == (space + "/") + seg;
    assert key[|key| - 1] == seg[|seg| - 1];
    AfterLast(space, seg);
  }

  lemma {:induction false} AfterLast(front: string, seg: string)
    requires '/' !in seg
    ensures AfterSlash(front + "/" + seg) == seg
    decreases |front|
  {
    var key := front + "/" + seg;
    var i := Index(front, '/');
    if i < 0 {
      IndexFirst(front, '/', seg);
      assert key[|front| + 1..] == seg;
      assert Index(seg, '/') == -1;
    } else {
      var rest := front[i + 1..] + "/" + seg;
      assert key == front[..i] + ['/'] + rest;
      IndexFirst(front[..i], '/', rest);
      assert key[i + 1..] == rest;
      AfterLast(front[i + 1..], seg);
    }
  }

  predicate AllSlashes(s: string) { forall i :: 0 <= i < |s| ==> s[i] == '/' }

  lemma {:induction false} TrimmedIs(t: string, tail: string)
    requires AllSlashes(tail) && (t == [] || t[|t| - 1] != '/')
    ensures TrimSlashes(t + tail) == t
    decreases |tail|
  {
    if tail == [] {
      assert t + tail == t;
    } else {
      assert (t + tail)[..|t + tail| - 1] == t + tail[..|tail| - 1];
      TrimmedIs(t, tail[..|tail| - 1]);
    }
  }

  /** The last element of any path: what stands after its last slash, slashes at its end not counted. */
  lemma {:induction false} BaseIs(front: string, seg: string, tail: string)
    requires AllSlashes(tail) && '/' !in seg && seg != []
    ensures Base(seg + tail) == seg && Base(front + "/" + seg + tail) == seg
    ensures Base(tail) == if tail == [] then "." else "/"
  {
    var t := front + "/" + seg;
    assert t[|t| - 1] == seg[|seg| - 1];
    TrimmedIs(seg, tail);
    TrimmedIs(t, tail);
    TrimmedIs([], tail);
    assert [] + tail == tail;
    AfterLast(front, seg);
  }

  /** Keys of the space that differ have different last elements. */
  ghost predicate DistinctBases(anno: map<string, string>, space: string) {
    forall k, l :: k in anno && l in anno && InSpace(k, space) && InSpace(l, space) && Base(k) == Base(l) ==> k == l
  }

  lemma {:induction false} OneSegmentDistinct(anno: map<string, string>, space: string)
    requires forall k :: k in anno && InSpace(k, space) ==> OneSegment(k, space)
    ensures DistinctBases(anno, space)
  {
    forall k, l | k in anno && l in anno && InSpace(k, space) && InSpace(l, space) && Base(k) == Base(l)
      ensures k == l
    {
      BaseOfOneSegment(k, space);
      BaseOfOneSegment(l, space);
      assert k == (space + "/") + k[|space| + 1..] && l == (space + "/") + l[|space| + 1..];
    }
  }

  // ---------- folding the map ----------

  const MIDDLEWARE := "middleware"

  /** What stands before and after the first dot, if there is one. */
  function SplitDot(base: string): (string, Option<string>) {
    var i := Index(base, '.');
    if i < 0 then (base, None) else (base[..i], Some(base[i + 1..]))
  }

  /** One turn of the loop over the annotations. */
  function Fold1(an: map<string, string>, e: Entry, space: string, port: string): map<string, string> {
    if !InSpace(e.0, space) then an
    else
      match SplitDot(Base(e.0))
      case (name, None) => if name in an then an else an[name := e.1]
      case (first, Some(second)) =>
        if port == "" && first != MIDDLEWARE then an
        else if first == port then an[second := e.1]
        else if first == MIDDLEWARE then an[MIDDLEWARE + "." + second := e.1]
        else an
  }

  function Folded(es: seq<Entry>, space: string, port: string): map<string, string> {
    if es == [] then map[] else Fold1(Folded(es[..|es| - 1], space, port), es[|es| - 1], space, port)
  }

  /** The value of the entry whose last path element is `base`. */
  function Find(es: seq<Entry>, space: string, base: string): Option<string> {
    if es == [] then None
    else
      var e := es[|es| - 1];
      if InSpace(e.0, space) && Base(e.0) == base then Some(e.1) else Find(es[..|es| - 1], space, base)
  }

  /** The port's own value of `k` if there is one, else the general value. */
  function Plain(es: seq<Entry>, space: string, port: string, k: string): Option<string> {
    var own := if port != "" && '.' !in port then Find(es, space, port + "." + k) else None;
    if own.Some? then own else if '.' in k then None else Find(es, space, k)
  }

  predicate IsPlain(k: string) { !(MIDDLEWARE + "." <= k) }

  lemma {:induction false} FindIs(es: seq<Entry>, space: string, base: string)
    ensures Find(es, space, base) == None
            <==> forall i :: 0 <= i < |es| ==> !(InSpace(es[i].0, space) && Base(es[i].0) == base)
    ensures Find(es, space, base).Some? ==>
              exists i :: 0 <= i < |es| && InSpace(es[i].0, space) && Base(es[i].0) == base
                          && es[i].1 == Find(es, space, base).value
    decreases |es|
  {
    if es != [] {
      var init := es[..|es| - 1];
      FindIs(init, space, base);
      forall i | 0 <= i < |init| ensures init[i] == es[i] {}
    }
  }

  lemma {:induction false} FindElsewhere(es: seq<Entry>, fs: seq<Entry>, anno: map<string, string>, space: string,
                                         base: string)
    requires Enumerates(es, anno) && Enumerates(fs, anno) && DistinctBases(anno, space)
    ensures Find(es, space, base).Some? ==> Find(fs, space, base) == Find(es, space, base)
  {
    FindIs(es, space, base);
    FindIs(fs, space, base);
    if Find(es, space, base).Some? {
      var i :| 0 <= i < |es| && InSpace(es[i].0, space) && Base(es[i].0) == base
               && es[i].1 == Find(es, space, base).value;
      var j :| 0 <= j < |fs| && fs[j].0 == es[i].0;
    }
  }

  /** Finding by last path element does not depend on the order. */
  lemma {:induction false} FindAnyOrder(es: seq<Entry>, fs: seq<Entry>, anno: map<string, string>, space: string,
                                        base: string)
    requires Enumerates(es, anno) && Enumerates(fs, anno) && DistinctBases(anno, space)
    ensures Find(es, space, base) == Find(fs, space, base)
  {
    FindElsewhere(es, fs, anno, space, base);
    FindElsewhere(fs, es, anno, space, base);
  }

  ghost predicate DistinctSeqBases(es: seq<Entry>, space: string) {
    forall i, j :: 0 <= i < j < |es| && InSpace(es[i].0, space) && InSpace(es[j].0, space) ==>
      Base(es[i].0) != Base(es[j].0)
  }

  /** `port.k` splits at its first dot into the port and `k`. */
  lemma {:induction false} SplitOwn(port: string, k: string, base: string)
    requires '.' !in port
    ensures SplitDot(base) == (port, Some(k)) <==> base == port + "." + k
  {
    var i := Index(base, '.');
    if base == port + "." + k {
      IndexFirst(port, '.', k);
      assert base[..|port|] == port && base[|port| + 1..] == k;
    } else if i >= 0 {
      assert base == base[..i] + "." + base[i + 1..];
    }
  }

  lemma {:induction false} FoldedIs(es: seq<Entry>, space: string, port: string, k: string)
    requires DistinctSeqBases(es, space) && IsPlain(k)
    ensures Get(Folded(es, space, port), k) == Plain(es, space, port, k)
    decreases |es|
  {
    if es != [] {
      var init := es[..|es| - 1];
      var e := es[|es| - 1];
      FoldedIs(init, space, port, k);
      if InSpace(e.0, space) {
        FindIs(init, space, Base(e.0));
        forall i | 0 <= i < |init| ensures !(InSpace(init[i].0, space) && Base(init[i].0) == Base(e.0)) {
          assert init[i] == es[i];
        }
        FoldStep(es, space, port, k);
      }
    }
  }

  lemma {:induction false} FoldStep(es: seq<Entry>, space: string, port: string, k: string)
    requires es != [] && IsPlain(k) && InSpace(es[|es| - 1].0, space)
    requires Find(es[..|es| - 1], space, Base(es[|es| - 1].0)) == None
    requires Get(Folded(es[..|es| - 1], space, port), k) == Plain(es[..|es| - 1], space, port, k)
    ensures Get(Folded(es, space, port), k) == Plain(es, space, port, k)
  {
    var base := Base(es[|es| - 1].0);
    var (first, second) := SplitDot(base);
    if '.' !in port {
      SplitOwn(port, k, base);
    }
    if second.None? {
      assert first == base && '.' !in base;
      assert base != port + "." + k by {
        assert (port + "." + k)[|port|] == '.';
      }
    } else {
      assert '.' in base && '.' !in first;
      NotPlain(second.value);
    }
  }

  lemma {:induction false} NotPlain(x: string)
    ensures !IsPlain(MIDDLEWARE + "." + x)
  {
    var key := MIDDLEWARE + "." + x;
    assert key[..|MIDDLEWARE| + 1] == MIDDLEWARE + ".";
  }

  /**
   Two orders of the same annotations give the same plain annotations; the port's own value
   beats the general one whichever comes first.
   */
  lemma {:induction false} AnyOrder(es: seq<Entry>, fs: seq<Entry>, anno: map<string, string>, space: string,
                                    port: string, k: string)
    requires Enumerates(es, anno) && Enumerates(fs, anno) && DistinctBases(anno, space) && IsPlain(k)
    ensures Get(Folded(es, space, port), k) == Get(Folded(fs, space, port), k) == Plain(es, space, port, k)
  {
    FoldedIs(es, space, port, k);
    FoldedIs(fs, space, port, k);
    FindAnyOrder(es, fs, anno, space, port + "." + k);
    FindAnyOrder(es, fs, anno, space, k);
  }

  // ---------- middleware keys ----------

  /** The port's own value of a middleware key, and the one written without a port. */
  function Own(es: seq<Entry>, space: string, port: string, k: string): Option<string> {
    if port != "" && '.' !in port then Find(es, space, port + "." + k) else None
  }

  function Shared(es: seq<Entry>, space: string, port: string, k: string): Option<string> {
    if port == MIDDLEWARE then None else Find(es, space, k)
  }

  /** A middleware annotation is one of the two; when there is only one, that one. */
  ghost predicate OneOf(got: Option<string>, own: Option<string>, shared: Option<string>) {
    (got == own || got == shared) && (own == None ==> got == shared) && (shared == None ==> got == own)
  }

  /** The last entry, if it is the port's own or the shared value of `x`, decides. */
  lemma {:induction false} LastDecides(an: map<string, string>, e: Entry, space: string, port: string, x: string)
    requires InSpace(e.0, space)
    ensures var k := MIDDLEWARE + "." + x; var base := Base(e.0);
            Get(Fold1(an, e, space, port), k) ==
            if (port != "" && '.' !in port && base == port + "." + k) || (port != MIDDLEWARE && base == k)
            then Some(e.1) else Get(an, k)
  {
    var k := MIDDLEWARE + "." + x;
    var base := Base(e.0);
    var (first, second) := SplitDot(base);
    assert '.' in k by { assert k[|MIDDLEWARE|] == '.'; }
    if '.' !in port { SplitOwn(port, k, base); }
    SplitOwn(MIDDLEWARE, x, base);
    if second.Some? {
      var key := MIDDLEWARE + "." + second.value;
      assert key[|MIDDLEWARE| + 1..] == second.value && k[|MIDDLEWARE| + 1..] == x;
    }
  }

  lemma {:induction false} MiddlewareIs(es: seq<Entry>, space: string, port: string, x: string)
    ensures var k := MIDDLEWARE + "." + x;
            OneOf(Get(Folded(es, space, port), k), Own(es, space, port, k), Shared(es, space, port, k))
    decreases |es|
  {
    if es != [] {
      var e := es[|es| - 1];
      MiddlewareIs(es[..|es| - 1], space, port, x);
      if InSpace(e.0, space) {
        LastDecides(Folded(es[..|es| - 1], space, port), e, space, port, x);
      }
    }
  }

  /** Move entry `i` to the end of the order. */
  function MoveLast(es: seq<Entry>, i: nat): seq<Entry>
    requires i < |es|
  {
    es[..i] + es[i + 1..] + [es[i]]
  }

  lemma {:induction false} MoveLastEnumerates(es: seq<Entry>, i: nat, anno: map<string, string>)
    requires Enumerates(es, anno) && i < |es|
    ensures Enumerates(MoveLast(es, i), anno)
  {
    var fs := MoveLast(es, i);
    MovedDistinct(es, i, anno);
    forall k | k in anno ensures exists j :: 0 <= j < |fs| && fs[j].0 == k {
      var j :| 0 <= j < |es| && es[j].0 == k;
      MovedTo(es, i, j);
    }
    forall j | 0 <= j < |fs| ensures fs[j].0 in anno && anno[fs[j].0] == fs[j].1 {
      MovedIs(es, i, j);
    }
  }

  lemma {:induction false} MovedDistinct(es: seq<Entry>, i: nat, anno: map<string, string>)
    requires Enumerates(es, anno) && i < |es|
    ensures forall j, l :: 0 <= j < l < |MoveLast(es, i)| ==> MoveLast(es, i)[j].0 != MoveLast(es, i)[l].0
  {
    var fs := MoveLast(es, i);
    forall j, l | 0 <= j < l < |fs| ensures fs[j].0 != fs[l].0 {
      MovedIs(es, i, j);
      MovedIs(es, i, l);
      assert MovedFrom(|es|, i, j) != MovedFrom(|es|, i, l);
    }
  }

  lemma {:induction false} MovedIs(es: seq<Entry>, i: nat, j: nat)
    requires i < |es| && j < |es|
    ensures |MoveLast(es, i)| == |es| && MoveLast(es, i)[j] == es[MovedFrom(|es|, i, j)]
  {
  }

  function MovedFrom(n: nat, i: nat, j: nat): (k: nat)
    requires i < n && j < n
    ensures k < n
  {
    if j < i then j else if j == n - 1 then i else j + 1
  }

  lemma {:induction false} MovedTo(es: seq<Entry>, i: nat, j: nat)
    requires i < |es| && j < |es|
    ensures exists l :: 0 <= l < |MoveLast(es, i)| && MoveLast(es, i)[l] == es[j]
  {
    var l := if j < i then j else if j == i then |es| - 1 else j - 1;
    assert MoveLast(es, i)[l] == es[j];
  }

  /** Some order of the map lets the entry with this last path element come last. */
  lemma {:induction false} SomeOrderEndsWith(es: seq<Entry>, anno: map<string, string>, space: string, base: string)
    returns (fs: seq<Entry>)
    requires Enumerates(es, anno) && Find(es, space, base).Some?
    ensures Enumerates(fs, anno) && fs != []
    ensures InSpace(fs[|fs| - 1].0, space) && Base(fs[|fs| - 1].0) == base
            && fs[|fs| - 1].1 == Find(es, space, base).value
  {
    FindIs(es, space, base);
    var i :| 0 <= i < |es| && InSpace(es[i].0, space) && Base(es[i].0) == base
             && es[i].1 == Find(es, space, base).value;
    MoveLastEnumerates(es, i, anno);
    fs := MoveLast(es, i);
  }

  /**
   A middleware annotation is the same in every order exactly when it is not given both for
   the port and without a port, with different values.
   */
  lemma {:induction false} MiddlewareOrderIff(es: seq<Entry>, anno: map<string, string>, space: string, port: string,
                                              x: string)
    requires Enumerates(es, anno) && DistinctBases(anno, space)
    ensures var k := MIDDLEWARE + "." + x; var own, shared := Own(es, space, port, k), Shared(es, space, port, k);
            (forall fs :: Enumerates(fs, anno) ==> Get(Folded(fs, space, port), k) == Get(Folded(es, space, port), k))
            <==> own == None || shared == None || own == shared
  {
    var k := MIDDLEWARE + "." + x;
    var own, shared := Own(es, space, port, k), Shared(es, space, port, k);
    MiddlewareIs(es, space, port, x);
    if own == None || shared == None || own == shared {
      forall fs | Enumerates(fs, anno) ensures Get(Folded(fs, space, port), k) == Get(Folded(es, space, port), k) {
        MiddlewareIs(fs, space, port, x);
        FindAnyOrder(es, fs, anno, space, port + "." + k);
        FindAnyOrder(es, fs, anno, space, k);
      }
    } else {
      var fs := SomeOrderEndsWith(es, anno, space, port + "." + k);
      LastDecides(Folded(fs[..|fs| - 1], space, port), fs[|fs| - 1], space, port, x);
      var gs := SomeOrderEndsWith(es, anno, space, k);
      LastDecides(Folded(gs[..|gs| - 1], space, port), gs[|gs| - 1], space, port, x);
      assert Get(Folded(fs, space, port), k) == own && Get(Folded(gs, space, port), k) == shared;
    }
  }

  // ---------- the loop ----------

  lemma {:induction false} EnumeratesNext(order: seq<Entry>, anno: map<string, string>, rest: set<string>, key: string)
    requires Enumerates(order, anno - rest) && key in rest && key in anno
    ensures Enumerates(order + [(key, anno[key])], anno - (rest - {key}))
  {
    var next := order + [(key, anno[key])];
    assert next[|order|].0 == key;
    forall k | k in anno - (rest - {key}) ensures exists i :: 0 <= i < |next| && next[i].0 == k {
      if k in anno - rest {
        var i :| 0 <= i < |order| && order[i].0 == k;
        assert next[i].0 == k;
      }
    }
  }

  /** The loop over the map, in whatever order it comes: plain annotations are as in any other order. */
  method PortAnnotations(anno: map<string, string>, space: string, port: string) returns (an: map<string, string>)
    ensures exists es :: Enumerates(es, anno) && an == Folded(es, space, port)
    ensures DistinctBases(anno, space) ==>
              forall es, k :: Enumerates(es, anno) && IsPlain(k) ==> Get(an, k) == Plain(es, space, port, k)
  {
    an := map[];
    var rest := anno.Keys;
    ghost var order: seq<Entry> := [];
    while rest != {}
      invariant rest <= anno.Keys && an == Folded(order, space, port) && Enumerates(order, anno - rest)
      decreases |rest|
    {
      var key :| key in rest;
      EnumeratesNext(order, anno, rest, key);
      order := order + [(key, anno[key])];
      assert order[..|order| - 1] + [(key, anno[key])] == order;
      an := Turn(an, key, anno[key], space, port);
      rest := rest - {key};
    }
    assert anno - {} == anno;
    forall es, k | DistinctBases(anno, space) && Enumerates(es, anno) && IsPlain(k)
      ensures Get(an, k) == Plain(es, space, port, k)
    {
      AnyOrder(es, order, anno, space, port, k);
    }
  }

  method Turn(before: map<string, string>, key: string, value: string, space: string, port: string)
    returns (an: map<string, string>)
    ensures an == Fold1(before, (key, value), space, port)
  {
    an := before;
    if space <= key {
      var (first, second) := SplitDot(Base(key));
      if second.Some? && port == "" && first != MIDDLEWARE { return; }
      if second.Some? {
        if first == port {
          an := an[second.value := value];
        } else if first == MIDDLEWARE {
          an := an[MIDDLEWARE + "." + second.value := value];
        }
      } else if first !in an {
        an := an[first := value];
      }
    }
  }
}
