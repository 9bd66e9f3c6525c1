/** Semantic versions (Semantic Versioning 2.0.0, items 2, 9, 10 and 11): parsing, printing and precedence. */
module Semver {
  import opened Wrappers
  import opened Text

  const UINT64 := 0x1_0000_0000_0000_0000

  /** A prerelease identifier: a number, or anything else. */
  datatype Pre = Num(n: nat) | Alpha(s: string)

  datatype Version = Version(major: nat, minor: nat, patch: nat, pre: seq<Pre>, build: seq<string>)

  predicate IsDigit(c: char) { '0' <= c <= '9' }

  predicate IsAlphanum(c: char) { IsDigit(c) || 'a' <= c <= 'z' || 'A' <= c <= 'Z' || c == '-' }

  predicate AllDigits(s: string) { forall i :: 0 <= i < |s| ==> IsDigit(s[i]) }

  predicate AllAlphanum(s: string) { forall i :: 0 <= i < |s| ==> IsAlphanum(s[i]) }

  predicate LeadingZeroes(s: string) { |s| > 1 && s[0] == '0' }

  // ---------- decimal numbers ----------

  function Digit(d: int): char
    requires 0 <= d < 10
  {
    '0' + d as char
  }

  function Digits(n: nat): string {
    if n < 10 then [Digit(n)] else Digits(n / 10) + [Digit(n % 10)]
  }

  function Value(s: string): nat
    requires AllDigits(s)
  {
    if s == [] then 0 else 10 * Value(s[..|s| - 1]) + (s[|s| - 1] as int - '0' as int)
  }

  /** A number without leading zeroes that fits in 64 bits. */
  function ParseNumber(s: string): Option<nat> {
    if !AllDigits(s) || LeadingZeroes(s) || s == [] || Value(s) >= UINT64 then None else Some(Value(s))
  }

  lemma {:induction false} DigitsValue(n: nat)
    ensures AllDigits(Digits(n)) && Digits(n) != [] && Value(Digits(n)) == n
    ensures Digits(n)[0] == '0' ==> n == 0
  {
    if n >= 10 {
      DigitsValue(n / 10);
      var s := Digits(n);
      assert s[..|s| - 1] == Digits(n / 10);
    } else {
      assert Digits(n)[..0] == [];
    }
  }

  lemma {:induction false} NumberRound(n: nat)
    requires n < UINT64
    ensures ParseNumber(Digits(n)) == Some(n)
  {
    DigitsValue(n);
    assert n < 10 ==> |Digits(n)| == 1;
  }

  lemma {:induction false} PositiveValue(s: string)
    requires AllDigits(s) && s != [] && s[0] != '0'
    ensures Value(s) > 0
    decreases |s|
  {
    if |s| > 1 {
      PositiveValue(s[..|s| - 1]);
    }
  }

  lemma {:induction false} DigitsSnoc(n: nat, d: int)
    requires n > 0 && 0 <= d < 10
    ensures Digits(10 * n + d) == Digits(n) + [Digit(d)]
  {
    var m := 10 * n + d;
    assert m / 10 == n && m % 10 == d;
  }

  lemma {:induction false} NumberExact(s: string)
    requires ParseNumber(s).Some?
    ensures Digits(ParseNumber(s).value) == s
    decreases |s|
  {
    var n := |s| - 1;
    var init, d := s[..n], s[n] as int - '0' as int;
    assert Value(s) == 10 * Value(init) + d && Digit(d) == s[n];
    assert s == init + [s[n]];
    if n > 0 {
      PositiveValue(init);
      assert AllDigits(init) && !LeadingZeroes(init);
      NumberExact(init);
      DigitsSnoc(Value(init), d);
    } else {
      assert init == [] && Value(init) == 0;
    }
  }

  // ---------- splitting ----------

  function Split(s: string): (r: seq<string>)
    ensures r != []
    decreases |s|
  {
    var i := Index(s, '.');
    if i < 0 then [s] else [s[..i]] + Split(s[i + 1..])
  }

  function Join(parts: seq<string>): string
    requires parts != []
  {
    if |parts| == 1 then parts[0] else parts[0] + ['.'] + Join(parts[1..])
  }

  lemma {:induction false} JoinCons(first: string, parts: seq<string>)
    requires parts != []
    ensures Join([first] + parts) == first + ['.'] + Join(parts)
  {
    assert ([first] + parts)[1..] == parts;
  }

  lemma {:induction false} SplitJoins(s: string)
    ensures Join(Split(s)) == s
    decreases |s|
  {
    var i := Index(s, '.');
    if i >= 0 {
      var first, rest := s[..i], s[i + 1..];
      SplitJoins(rest);
      JoinCons(first, Split(rest));
      AroundDot(s, i);
    }
  }

  lemma {:induction false} JoinSplits(parts: seq<string>)
    requires parts != [] && forall i :: 0 <= i < |parts| ==> '.' !in parts[i]
    ensures Split(Join(parts)) == parts
    decreases |parts|
  {
    if |parts| > 1 {
      var rest := Join(parts[1..]);
      JoinSplits(parts[1..]);
      SplitFirst(parts[0], rest);
      assert parts == [parts[0]] + parts[1..];
    }
  }

  lemma {:induction false} SplitFirst(a: string, rest: string)
    requires '.' !in a
    ensures Split(a + ['.'] + rest) == [a] + Split(rest)
  {
    var s := a + ['.'] + rest;
    IndexFirst(a, '.', rest);
    assert s[|a| + 1..] == rest && s[..|a|] == a;
  }

  // ---------- printing ----------

  function PreString(p: Pre): string { match p case Num(n) => Digits(n) case Alpha(s) => s }

  function PreStrings(ps: seq<Pre>): (r: seq<string>)
    ensures |r| == |ps| && forall i :: 0 <= i < |ps| ==> r[i] == PreString(ps[i])
  {
    seq(|ps|, i requires 0 <= i < |ps| => PreString(ps[i]))
  }

  function PreText(ps: seq<Pre>): string { if ps == [] then [] else ['-'] + Join(PreStrings(ps)) }

  function BuildText(bs: seq<string>): string { if bs == [] then [] else ['+'] + Join(bs) }

  function Print(v: Version): string {
    Digits(v.major) + ['.'] + (Digits(v.minor) + ['.'] + (Digits(v.patch) + PreText(v.pre) + BuildText(v.build)))
  }

  // ---------- parsing ----------

  function ParsePre(s: string): Option<Pre> {
    if s == [] then None
    else if AllDigits(s) then
      (match ParseNumber(s)
       case Some(n) => Some(Num(n))
       case None => None)
    else if AllAlphanum(s) then Some(Alpha(s))
    else None
  }

  function ParsePres(parts: seq<string>): Option<seq<Pre>> {
    if parts == [] then Some([])
    else
      match ParsePres(parts[..|parts| - 1])
      case None => None
      case Some(ps) =>
        match ParsePre(parts[|parts| - 1])
        case None => None
        case Some(p) => Some(ps + [p])
  }

  predicate BuildOk(s: string) { s != [] && AllAlphanum(s) }

  predicate BuildsOk(parts: seq<string>) { forall i :: 0 <= i < |parts| ==> BuildOk(parts[i]) }

  /** What stands before `c`, and the dot-separated parts after it, if `c` is there. */
  function Cut(s: string, c: char): (string, seq<string>) {
    var i := Index(s, c);
    if i < 0 then (s, []) else (s[..i], Split(s[i + 1..]))
  }

  function ParseRest(major: nat, minor: nat, s: string): Option<Version> {
    var (front, build) := Cut(s, '+');
    var (patch, pre) := Cut(front, '-');
    match ParseNumber(patch)
    case None => None
    case Some(p) =>
      match ParsePres(pre)
      case None => None
      case Some(ps) => if BuildsOk(build) then Some(Version(major, minor, p, ps, build)) else None
  }

  function Parse(s: string): Option<Version> {
    var i := Index(s, '.');
    if i < 0 then None
    else
      var rest := s[i + 1..];
      var j := Index(rest, '.');
      if j < 0 then None
      else
        match ParseNumber(s[..i])
        case None => None
        case Some(major) =>
          match ParseNumber(rest[..j])
          case None => None
          case Some(minor) => ParseRest(major, minor, rest[j + 1..])
  }

  // ---------- parse and print are inverses ----------

  predicate PreOk(p: Pre) {
    match p
    case Num(n) => n < UINT64
    case Alpha(s) => s != [] && AllAlphanum(s) && !AllDigits(s)
  }

  predicate WellFormed(v: Version) {
    && v.major < UINT64 && v.minor < UINT64 && v.patch < UINT64
    && (forall i :: 0 <= i < |v.pre| ==> PreOk(v.pre[i])) && BuildsOk(v.build)
  }

  lemma {:induction false} PreRound(p: Pre)
    requires PreOk(p)
    ensures ParsePre(PreString(p)) == Some(p) && AllAlphanum(PreString(p))
  {
    if p.Num? {
      NumberRound(p.n);
      DigitsValue(p.n);
    }
  }

  lemma {:induction false} PreExact(s: string)
    requires ParsePre(s).Some?
    ensures PreString(ParsePre(s).value) == s && PreOk(ParsePre(s).value)
  {
    if AllDigits(s) {
      NumberExact(s);
    }
  }

  lemma {:induction false} PresRound(ps: seq<Pre>)
    requires forall i :: 0 <= i < |ps| ==> PreOk(ps[i])
    ensures ParsePres(PreStrings(ps)) == Some(ps)
    decreases |ps|
  {
    if ps != [] {
      var n := |ps| - 1;
      PresRound(ps[..n]);
      PreRound(ps[n]);
      assert PreStrings(ps)[..n] == PreStrings(ps[..n]);
      assert ps == ps[..n] + [ps[n]];
    }
  }

  lemma {:induction false} PresExact(parts: seq<string>)
    requires ParsePres(parts).Some?
    ensures var ps := ParsePres(parts).value; PreStrings(ps) == parts && forall i :: 0 <= i < |ps| ==> PreOk(ps[i])
    decreases |parts|
  {
    if parts != [] {
      var n := |parts| - 1;
      PresExact(parts[..n]);
      PreExact(parts[n]);
      assert parts == parts[..n] + [parts[n]];
    }
  }

  lemma {:induction false} NoDots(parts: seq<string>)
    requires forall i :: 0 <= i < |parts| ==> AllAlphanum(parts[i])
    ensures forall i :: 0 <= i < |parts| ==> '.' !in parts[i] && '+' !in parts[i]
  {
    forall i | 0 <= i < |parts| ensures '.' !in parts[i] && '+' !in parts[i] {
      assert AllAlphanum(parts[i]);
    }
  }

  lemma {:induction false} JoinNoPlus(parts: seq<string>)
    requires parts != [] && forall i :: 0 <= i < |parts| ==> '+' !in parts[i]
    ensures '+' !in Join(parts)
    decreases |parts|
  {
    if |parts| > 1 {
      JoinNoPlus(parts[1..]);
    }
  }

  lemma {:induction false} CutRound(front: string, c: char, parts: seq<string>)
    requires c !in front && forall i :: 0 <= i < |parts| ==> '.' !in parts[i]
    ensures Cut(front + (if parts == [] then [] else [c] + Join(parts)), c) == (front, parts)
  {
    if parts == [] {
      assert front + [] == front;
    } else {
      var s := front + ([c] + Join(parts));
      assert s == front + [c] + Join(parts);
      IndexFirst(front, c, Join(parts));
      assert s[..|front|] == front && s[|front| + 1..] == Join(parts);
      JoinSplits(parts);
    }
  }

  lemma {:induction false} CutExact(s: string, c: char)
    ensures var (front, parts) := Cut(s, c); front + (if parts == [] then [] else [c] + Join(parts)) == s && c !in front
  {
    var i := Index(s, c);
    if i >= 0 {
      SplitJoins(s[i + 1..]);
      assert s == s[..i] + ([c] + s[i + 1..]);
    } else {
      assert s + [] == s;
    }
  }

  lemma {:induction false} DigitsPlain(n: nat)
    ensures '.' !in Digits(n) && '+' !in Digits(n) && '-' !in Digits(n)
  {
    DigitsValue(n);
  }

  lemma {:induction false} RestRound(v: Version)
    requires WellFormed(v)
    ensures ParseRest(v.major, v.minor, Digits(v.patch) + PreText(v.pre) + BuildText(v.build)) == Some(v)
  {
    var pres := PreStrings(v.pre);
    forall i | 0 <= i < |pres| ensures AllAlphanum(pres[i]) {
      PreRound(v.pre[i]);
    }
    NoDots(pres);
    forall i | 0 <= i < |v.build| ensures AllAlphanum(v.build[i]) {
      assert BuildOk(v.build[i]);
    }
    NoDots(v.build);
    DigitsPlain(v.patch);
    var front := Digits(v.patch) + PreText(v.pre);
    if v.pre != [] { JoinNoPlus(pres); }
    assert '+' !in front;
    CutRound(front, '+', v.build);
    CutRound(Digits(v.patch), '-', pres);
    NumberRound(v.patch);
    PresRound(v.pre);
  }

  lemma {:induction false} CutFirst(a: string, c: char, b: string)
    requires c !in a
    ensures var s := a + [c] + b; Index(s, c) == |a| && s[..|a|] == a && s[|a| + 1..] == b
  {
    IndexFirst(a, c, b);
  }

  lemma {:induction false} ParseSplit(a: string, b: string, tail: string)
    requires '.' !in a && '.' !in b && ParseNumber(a).Some? && ParseNumber(b).Some?
    ensures Parse(a + ['.'] + (b + ['.'] + tail)) == ParseRest(ParseNumber(a).value, ParseNumber(b).value, tail)
  {
    CutFirst(a, '.', b + ['.'] + tail);
    CutFirst(b, '.', tail);
  }

  /** Printing a well-formed version and parsing it gives the version back. */
  lemma {:induction false} PrintParses(v: Version)
    requires WellFormed(v)
    ensures Parse(Print(v)) == Some(v)
  {
    var tail := Digits(v.patch) + PreText(v.pre) + BuildText(v.build);
    assert Print(v) == Digits(v.major) + ['.'] + (Digits(v.minor) + ['.'] + tail);
    DigitsPlain(v.major);
    DigitsPlain(v.minor);
    NumberRound(v.major);
    NumberRound(v.minor);
    ParseSplit(Digits(v.major), Digits(v.minor), tail);
    RestRound(v);
  }

  /** The punctuation of a version: dots, a dash before the prerelease, a plus before the build metadata. */
  lemma {:induction false} Punctuation(v: Version, a: string, b: string)
    ensures Print(v) == Digits(v.major) + "." + Digits(v.minor) + "." + Digits(v.patch)
                        + (if v.pre == [] then "" else "-" + Join(PreStrings(v.pre)))
                        + (if v.build == [] then "" else "+" + Join(v.build))
    ensures Join([a, b]) == a + "." + b
  {
    assert [a, b][1..] == [b];
  }

  lemma {:induction false} RestExact(major: nat, minor: nat, s: string)
    requires ParseRest(major, minor, s).Some?
    ensures var v := ParseRest(major, minor, s).value;
            && Digits(v.patch) + PreText(v.pre) + BuildText(v.build) == s && v.major == major && v.minor == minor
            && v.patch < UINT64 && (forall i :: 0 <= i < |v.pre| ==> PreOk(v.pre[i])) && BuildsOk(v.build)
  {
    var (front, build) := Cut(s, '+');
    var (patch, pre) := Cut(front, '-');
    CutExact(s, '+');
    CutExact(front, '-');
    NumberExact(patch);
    PresExact(pre);
  }

  lemma {:induction false} AroundDot(s: string, i: nat)
    requires i < |s| && s[i] == '.'
    ensures s[..i] + ['.'] + s[i + 1..] == s
  {
  }

  /** Every accepted string is the print of its version, which is well formed. */
  lemma {:induction false} ParsePrints(s: string)
    requires Parse(s).Some?
    ensures Print(Parse(s).value) == s && WellFormed(Parse(s).value)
  {
    var i := Index(s, '.');
    var rest := s[i + 1..];
    var j := Index(rest, '.');
    NumberExact(s[..i]);
    NumberExact(rest[..j]);
    RestExact(ParseNumber(s[..i]).value, ParseNumber(rest[..j]).value, rest[j + 1..]);
    AroundDot(s, i);
    AroundDot(rest, j);
  }

  /** Letters, digits and dashes of ASCII, at least one. */
  ghost predicate Identifier(s: string) {
    s != "" && forall i :: 0 <= i < |s| ==>
      48 <= s[i] as int <= 57 || 65 <= s[i] as int <= 90 || 97 <= s[i] as int <= 122 || s[i] as int == 45
  }

  /** What may be written as a version: numbers of 64 bits, and identifiers that are no numbers where they are none. */
  lemma {:induction false} WellFormedIs(v: Version)
    ensures WellFormed(v) <==>
              && v.major <= 18446744073709551615 && v.minor <= 18446744073709551615 && v.patch <= 18446744073709551615
              && (forall i :: 0 <= i < |v.pre| && v.pre[i].Num? ==> v.pre[i].n <= 18446744073709551615)
              && (forall i :: 0 <= i < |v.pre| && v.pre[i].Alpha? ==>
                    Identifier(v.pre[i].s) && exists k :: 0 <= k < |v.pre[i].s| && !('0' <= v.pre[i].s[k] <= '9'))
              && (forall i :: 0 <= i < |v.build| ==> Identifier(v.build[i]))
  {
    forall i | 0 <= i < |v.pre| && v.pre[i].Alpha?
      ensures Identifier(v.pre[i].s) <==> v.pre[i].s != [] && AllAlphanum(v.pre[i].s)
    {
      IdentifierIs(v.pre[i].s);
    }
    forall i | 0 <= i < |v.build| ensures Identifier(v.build[i]) <==> BuildOk(v.build[i]) {
      IdentifierIs(v.build[i]);
    }
  }

  lemma {:induction false} IdentifierIs(s: string)
    ensures Identifier(s) <==> s != [] && AllAlphanum(s)
  {
    forall i | 0 <= i < |s|
      ensures IsAlphanum(s[i])
              <==> 48 <= s[i] as int <= 57 || 65 <= s[i] as int <= 90 || 97 <= s[i] as int <= 122 || s[i] as int == 45
    {
    }
  }

  // ---------- precedence ----------

  function Sign(a: int, b: int): int { if a == b then 0 else if a > b then 1 else -1 }

  /** Strings are compared character by character, a prefix first. */
  function CompareStrings(a: string, b: string): int {
    if a == [] && b == [] then 0
    else if a == [] then -1
    else if b == [] then 1
    else if a[0] != b[0] then Sign(a[0] as int, b[0] as int)
    else CompareStrings(a[1..], b[1..])
  }

  function ComparePre(a: Pre, b: Pre): int {
    if a.Num? && b.Alpha? then -1
    else if a.Alpha? && b.Num? then 1
    else if a.Num? then Sign(a.n, b.n)
    else CompareStrings(a.s, b.s)
  }

  /** The first difference decides; otherwise the shorter list is less. */
  function ComparePres(a: seq<Pre>, b: seq<Pre>): int {
    if a == [] || b == [] then Sign(|a|, |b|)
    else if ComparePre(a[0], b[0]) != 0 then ComparePre(a[0], b[0])
    else ComparePres(a[1..], b[1..])
  }

  /** A version without prerelease follows one with. */
  function Compare(a: Version, b: Version): int {
    if a.major != b.major then Sign(a.major, b.major)
    else if a.minor != b.minor then Sign(a.minor, b.minor)
    else if a.patch != b.patch then Sign(a.patch, b.patch)
    else if a.pre == [] && b.pre == [] then 0
    else if a.pre == [] then 1
    else if b.pre == [] then -1
    else ComparePres(a.pre, b.pre)
  }

  lemma {:induction false} StringsOrder(a: string, b: string, c: string)
    ensures CompareStrings(b, a) == -CompareStrings(a, b) && (CompareStrings(a, b) == 0 <==> a == b)
    ensures CompareStrings(a, b) <= 0 && CompareStrings(b, c) <= 0 ==> CompareStrings(a, c) <= 0
    decreases |a| + |b| + |c|
  {
    if a != [] && b != [] {
      StringsOrder(a[1..], b[1..], if c == [] then [] else c[1..]);
      assert a == [a[0]] + a[1..] && b == [b[0]] + b[1..];
    }
  }

  lemma {:induction false} PreOrder(a: Pre, b: Pre, c: Pre)
    ensures ComparePre(b, a) == -ComparePre(a, b) && (ComparePre(a, b) == 0 <==> a == b)
    ensures ComparePre(a, b) <= 0 && ComparePre(b, c) <= 0 ==> ComparePre(a, c) <= 0
  {
    if a.Alpha? && b.Alpha? {
      StringsOrder(a.s, b.s, if c.Alpha? then c.s else []);
    }
  }

  lemma {:induction false} PresOrder(a: seq<Pre>, b: seq<Pre>, c: seq<Pre>)
    ensures ComparePres(b, a) == -ComparePres(a, b) && (ComparePres(a, b) == 0 <==> a == b)
    ensures ComparePres(a, b) <= 0 && ComparePres(b, c) <= 0 ==> ComparePres(a, c) <= 0
    decreases |a| + |b| + |c|
  {
    if a != [] && b != [] {
      PreOrder(a[0], b[0], if c == [] then a[0] else c[0]);
      PresOrder(a[1..], b[1..], if c == [] then [] else c[1..]);
      assert a == [a[0]] + a[1..] && b == [b[0]] + b[1..];
      if c != [] {
        PreOrder(b[0], c[0], a[0]);
        PreOrder(a[0], c[0], a[0]);
      }
    }
  }

  /**
   Precedence is a total preorder, and versions are equal in it exactly when they differ in build
   metadata at most.
   */
  lemma {:induction false} Precedence(a: Version, b: Version, c: Version)
    ensures Compare(b, a) == -Compare(a, b)
    ensures Compare(a, b) <= 0 && Compare(b, c) <= 0 ==> Compare(a, c) <= 0
    ensures Compare(a, b) == 0 <==> a.(build := []) == b.(build := [])
  {
    PresOrder(a.pre, b.pre, c.pre);
  }

  // ---------- precedence as the standard words it ----------

  /** The first character that differs is greater in ASCII order, or `b` is a proper prefix of `a`. */
  ghost predicate StringAbove(a: string, b: string) {
    exists k :: 0 <= k <= |b| && k < |a| && a[..k] == b[..k] && (k == |b| || a[k] > b[k])
  }

  /** Numbers by their value, others in ASCII order, and numbers below the others. */
  ghost predicate PreAbove(a: Pre, b: Pre) {
    || (a.Num? && b.Num? && a.n > b.n)
    || (a.Alpha? && b.Num?)
    || (a.Alpha? && b.Alpha? && StringAbove(a.s, b.s))
  }

  /** The first identifier that differs is above, or all of `b` is there and more follows. */
  ghost predicate PresAbove(a: seq<Pre>, b: seq<Pre>) {
    exists k :: 0 <= k <= |b| && k < |a| && a[..k] == b[..k] && (k == |b| || PreAbove(a[k], b[k]))
  }

  /** Major, minor and patch in this order; then a release is above its prereleases. */
  ghost predicate Above(a: Version, b: Version) {
    || a.major > b.major
    || (a.major == b.major && a.minor > b.minor)
    || (a.major == b.major && a.minor == b.minor && a.patch > b.patch)
    || (a.major == b.major && a.minor == b.minor && a.patch == b.patch
        && b.pre != [] && (a.pre == [] || PresAbove(a.pre, b.pre)))
  }

  lemma {:induction false} PrefixTail<T>(a: seq<T>, b: seq<T>, k: nat)
    requires a != [] && b != [] && 0 < k <= |a| && k <= |b|
    ensures a[..k] == b[..k] <==> a[0] == b[0] && a[1..][..k - 1] == b[1..][..k - 1]
  {
    assert a[..k] == [a[0]] + a[1..][..k - 1] && b[..k] == [b[0]] + b[1..][..k - 1];
    assert a[..k][0] == a[0] && b[..k][0] == b[0];
    assert a[..k][1..] == a[1..][..k - 1] && b[..k][1..] == b[1..][..k - 1];
  }

  lemma {:induction false} StringIsAbove(a: string, b: string)
    ensures CompareStrings(a, b) == 1 <==> StringAbove(a, b)
    decreases |a|
  {
    if a != [] && (b == [] || a[0] != b[0]) {
      assert a[..0] == b[..0];
      forall k | 0 < k <= |b| && k < |a| ensures a[..k] != b[..k] { PrefixTail(a, b, k); }
    } else if a != [] {
      var x, y := a[1..], b[1..];
      StringIsAbove(x, y);
      if StringAbove(x, y) {
        var k :| 0 <= k <= |y| && k < |x| && x[..k] == y[..k] && (k == |y| || x[k] > y[k]);
        PrefixTail(a, b, k + 1);
      }
      if StringAbove(a, b) {
        var k :| 0 <= k <= |b| && k < |a| && a[..k] == b[..k] && (k == |b| || a[k] > b[k]);
        PrefixTail(a, b, k);
        assert x[..k - 1] == y[..k - 1];
      }
    }
  }

  lemma {:induction false} PreIsAbove(a: Pre, b: Pre)
    ensures ComparePre(a, b) == 1 <==> PreAbove(a, b)
    ensures ComparePre(a, b) == 0 ==> a == b
    ensures !PreAbove(a, a)
  {
    PreOrder(a, b, a);
    PreOrder(a, a, a);
    if a.Alpha? {
      StringIsAbove(a.s, a.s);
      StringsOrder(a.s, a.s, a.s);
      if b.Alpha? { StringIsAbove(a.s, b.s); }
    }
  }

  lemma {:induction false} PresIsAbove(a: seq<Pre>, b: seq<Pre>)
    ensures ComparePres(a, b) == 1 <==> PresAbove(a, b)
    decreases |a|
  {
    if a != [] && b == [] {
      assert a[..0] == b[..0];
    } else if a != [] && a[0] != b[0] {
      PreIsAbove(a[0], b[0]);
      PreOrder(a[0], b[0], a[0]);
      assert a[..0] == b[..0];
      forall k | 0 < k <= |b| && k < |a| ensures a[..k] != b[..k] { PrefixTail(a, b, k); }
    } else if a != [] {
      PresTailAbove(a, b);
      PresIsAbove(a[1..], b[1..]);
      PreOrder(a[0], b[0], a[0]);
    }
  }

  lemma {:induction false} PresTailAbove(a: seq<Pre>, b: seq<Pre>)
    requires a != [] && b != [] && a[0] == b[0]
    ensures PresAbove(a, b) <==> PresAbove(a[1..], b[1..])
  {
    var x, y := a[1..], b[1..];
    PreIsAbove(a[0], b[0]);
    if PresAbove(x, y) {
      var k :| 0 <= k <= |y| && k < |x| && x[..k] == y[..k] && (k == |y| || PreAbove(x[k], y[k]));
      PrefixTail(a, b, k + 1);
    }
    if PresAbove(a, b) {
      var k :| 0 <= k <= |b| && k < |a| && a[..k] == b[..k] && (k == |b| || PreAbove(a[k], b[k]));
      PrefixTail(a, b, k);
      assert x[..k - 1] == y[..k - 1];
    }
  }

  /** The comparison is the standard's precedence, in both directions. */
  lemma {:induction false} CompareIsPrecedence(a: Version, b: Version)
    ensures Compare(a, b) == 1 <==> Above(a, b)
    ensures Compare(a, b) == -1 <==> Above(b, a)
    ensures Compare(a, b) == 0 <==> !Above(a, b) && !Above(b, a)
  {
    PresIsAbove(a.pre, b.pre);
    PresIsAbove(b.pre, a.pre);
    Precedence(a, b, a);
    CompareRange(a, b);
  }

  lemma {:induction false} StringsRange(a: string, b: string)
    ensures -1 <= CompareStrings(a, b) <= 1
    decreases |a|
  {
    if a != [] && b != [] { StringsRange(a[1..], b[1..]); }
  }

  lemma {:induction false} PresRange(a: seq<Pre>, b: seq<Pre>)
    ensures -1 <= ComparePres(a, b) <= 1
    decreases |a|
  {
    if a != [] && b != [] {
      if a[0].Alpha? && b[0].Alpha? { StringsRange(a[0].s, b[0].s); }
      PresRange(a[1..], b[1..]);
    }
  }

  lemma {:induction false} CompareRange(a: Version, b: Version)
    ensures -1 <= Compare(a, b) <= 1
  {
    PresRange(a.pre, b.pre);
  }

  // ---------- the loops ----------

  method CompareVersions(v: Version, o: Version) returns (r: int)
    ensures r == Compare(v, o)
  {
    if v.major != o.major { return if v.major > o.major then 1 else -1; }
    if v.minor != o.minor { return if v.minor > o.minor then 1 else -1; }
    if v.patch != o.patch { return if v.patch > o.patch then 1 else -1; }
    if |v.pre| == 0 && |o.pre| == 0 { return 0; }
    if |v.pre| == 0 { return 1; }
    if |o.pre| == 0 { return -1; }
    var i := 0;
    assert v.pre[0..] == v.pre && o.pre[0..] == o.pre;
    while i < |v.pre| && i < |o.pre|
      invariant i <= |v.pre| && i <= |o.pre| && ComparePres(v.pre[i..], o.pre[i..]) == ComparePres(v.pre, o.pre)
    {
      var comp := ComparePre(v.pre[i], o.pre[i]);
      PreOrder(v.pre[i], o.pre[i], v.pre[i]);
      if comp != 0 {
        return comp;
      }
      i := i + 1;
    }
    if i == |v.pre| && i == |o.pre| { return 0; }
    if i == |v.pre| { return -1; }
    return 1;
  }

  lemma {:induction false} PresNone(parts: seq<string>, i: nat)
    requires i <= |parts| && ParsePres(parts[..i]) == None
    ensures ParsePres(parts) == None
    decreases |parts|
  {
    if i == |parts| {
      assert parts[..i] == parts;
    } else {
      assert parts[..|parts| - 1][..i] == parts[..i];
      PresNone(parts[..|parts| - 1], i);
    }
  }

  /** The loop over the prerelease identifiers. */
  method ReadPres(parts: seq<string>) returns (pres: Option<seq<Pre>>)
    ensures pres == ParsePres(parts)
  {
    var ps: seq<Pre> := [];
    for i := 0 to |parts|
      invariant ParsePres(parts[..i]) == Some(ps)
    {
      assert parts[..i + 1][..i] == parts[..i];
      var p := ParsePre(parts[i]);
      if p.None? {
        PresNone(parts, i + 1);
        return None;
      }
      ps := ps + [p.value];
    }
    assert parts[..|parts|] == parts;
    return Some(ps);
  }

  /** The loop over the build metadata. */
  method ReadBuild(parts: seq<string>) returns (build: Option<seq<string>>)
    ensures build == if BuildsOk(parts) then Some(parts) else None
  {
    var bs: seq<string> := [];
    for i := 0 to |parts|
      invariant bs == parts[..i] && BuildsOk(parts[..i])
    {
      if parts[i] == [] || !AllAlphanum(parts[i]) { return None; }
      bs := bs + [parts[i]];
    }
    assert parts[..|parts|] == parts;
    return Some(bs);
  }

  /** What follows the second dot: the patch number, prerelease and build metadata. */
  method ParsePatch(major: nat, minor: nat, s: string) returns (v: Option<Version>)
    ensures v == ParseRest(major, minor, s)
  {
    var (front, build) := Cut(s, '+');
    var (patchText, pre) := Cut(front, '-');
    var patch := ParseNumber(patchText);
    if patch.None? { return None; }
    var pres := ReadPres(pre);
    if pres.None? { return None; }
    var builds := ReadBuild(build);
    if builds.None? { return None; }
    return Some(Version(major, minor, patch.value, pres.value, builds.value));
  }

  method ParseVersion(s: string) returns (v: Option<Version>)
    ensures v == Parse(s)
  {
    var i := Index(s, '.');
    if i < 0 { return None; }
    var rest := s[i + 1..];
    var j := Index(rest, '.');
    if j < 0 { return None; }
    var major := ParseNumber(s[..i]);
    if major.None? { return None; }
    var minor := ParseNumber(rest[..j]);
    if minor.None? { return None; }
    v := ParsePatch(major.value, minor.value, rest[j + 1..]);
  }

  lemma {:induction false} JoinNext(parts: seq<string>, i: nat)
    requires 0 < i < |parts|
    ensures Join(parts[..i + 1]) == Join(parts[..i]) + ['.'] + parts[i]
    decreases i
  {
    var a, b := parts[..i], parts[..i + 1];
    if i > 1 {
      JoinNext(parts[1..], i - 1);
      assert b[1..] == parts[1..][..i] && a[1..] == parts[1..][..i - 1];
      assert Join(b) == parts[0] + ['.'] + (Join(a[1..]) + ['.'] + parts[i]);
      assert Join(a) == parts[0] + ['.'] + Join(a[1..]);
    } else {
      assert b[1..] == [parts[1]];
    }
  }

  method AppendParts(b: string, mark: char, parts: seq<string>) returns (r: string)
    requires parts != []
    ensures r == b + ([mark] + Join(parts))
  {
    r := b + [mark] + parts[0];
    assert parts[..1] == [parts[0]];
    for i := 1 to |parts|
      invariant r == b + ([mark] + Join(parts[..i]))
    {
      JoinNext(parts, i);
      r := r + ['.'] + parts[i];
    }
    assert parts[..|parts|] == parts;
  }

  method PrintVersion(v: Version) returns (b: string)
    ensures b == Print(v)
  {
    var patch := Digits(v.patch);
    if |v.pre| > 0 {
      patch := AppendParts(patch, '-', PreStrings(v.pre));
    }
    assert patch == Digits(v.patch) + PreText(v.pre);
    if |v.build| > 0 {
      patch := AppendParts(patch, '+', v.build);
    }
    assert patch == Digits(v.patch) + PreText(v.pre) + BuildText(v.build);
    b := Digits(v.major) + ['.'] + (Digits(v.minor) + ['.'] + patch);
  }
}
