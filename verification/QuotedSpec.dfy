/**
 Double-quoted scalars (section 9.1.1 of YAML 1.1; escapes, section 5.6) over code points: how
 the emitter writes one and how the scanner reads it back.
 */
module QuotedSpec {
  import opened Wrappers
  import opened Utf8

  // ---------- character classes ----------

  predicate IsBreak(c: int) { c == 0x0D || c == 0x0A || c == 0x85 || c == 0x2028 || c == 0x2029 }

  predicate IsBlank(c: int) { c == 0x20 || c == 0x09 }

  predicate IsBlankz(c: int) { IsBlank(c) || IsBreak(c) || c == 0 }

  predicate IsPrintable(c: int) {
    c == 0x0A || 0x20 <= c <= 0x7E || 0xA0 <= c <= 0xD7FF || (0xE000 <= c <= 0xFFFD && c != 0xFEFF)
  }

  predicate Scalars(v: seq<int>) { forall i :: 0 <= i < |v| ==> Scalar(v[i]) }

  const SPACE := 0x20
  const QUOTE := 0x22
  const BACKSLASH := 0x5C
  const BOM := 0xFEFF

  // ---------- writing ----------

  datatype LineBreak = CR | LN | CRLN

  datatype Settings = Settings(unicode: bool, allowBreaks: bool, bestWidth: int, indent: int, lineBreak: LineBreak)

  /** Where the emitter stands: its column, and whether the last thing written was white space or an indentation. */
  datatype Place = Place(column: int, whitespace: bool, indention: bool)

  /** Once a value starts with a byte order mark, the source's test escapes every one of its characters. */
  predicate NeedsEscape(s: Settings, v: seq<int>, c: int) {
    !IsPrintable(c) || (!s.unicode && c > 0x7F) || (v != [] && v[0] == BOM) || IsBreak(c) || c == QUOTE
        || c == BACKSLASH
  }

  function HexDigit(d: int): int { if d < 10 then 0x30 + d else 0x41 + d - 10 }

  /** `v` without its last `n` hexadecimal digits. */
  function Shift(v: int, n: nat): int {
    if n == 0 then v else Shift(v, n - 1) / 16
  }

  /** The last `w` hexadecimal digits of `v`, highest first. */
  function Hex(v: int, w: nat): seq<int> {
    if w == 0 then [] else [HexDigit(Shift(v, w - 1) % 16)] + Hex(v, w - 1)
  }

  /** The letter of a one-letter escape. */
  function Letter(c: int): Option<int> {
    if c == 0x00 then Some('0' as int)
    else if c == 0x07 then Some('a' as int)
    else if c == 0x08 then Some('b' as int)
    else if c == 0x09 then Some('t' as int)
    else if c == 0x0A then Some('n' as int)
    else if c == 0x0B then Some('v' as int)
    else if c == 0x0C then Some('f' as int)
    else if c == 0x0D then Some('r' as int)
    else if c == 0x1B then Some('e' as int)
    else if c == 0x22 then Some(QUOTE)
    else if c == 0x5C then Some(BACKSLASH)
    else if c == 0x85 then Some('N' as int)
    else if c == 0xA0 then Some('_' as int)
    else if c == 0x2028 then Some('L' as int)
    else if c == 0x2029 then Some('P' as int)
    else None
  }

  function Escape(c: int): seq<int> {
    match Letter(c)
    case Some(l) => [BACKSLASH, l]
    case None =>
      if c <= 0xFF then [BACKSLASH, 'x' as int] + Hex(c, 2)
      else if c <= 0xFFFF then [BACKSLASH, 'u' as int] + Hex(c, 4)
      else [BACKSLASH, 'U' as int] + Hex(c, 8)
  }

  function Spaces(n: int): seq<int>
    decreases n
  {
    if n <= 0 then [] else [SPACE] + Spaces(n - 1)
  }

  function BreakOf(b: LineBreak): seq<int> {
    match b
    case CR => [0x0D]
    case LN => [0x0A]
    case CRLN => [0x0D, 0x0A]
  }

  function Margin(s: Settings): int { if s.indent < 0 then 0 else s.indent }

  /** `yaml_emitter_write_indent` breaks the line unless it stands at an indentation already. */
  predicate BreaksLine(s: Settings, p: Place) {
    !p.indention || p.column > Margin(s) || (p.column == Margin(s) && !p.whitespace)
  }

  function IndentText(s: Settings, p: Place): seq<int> {
    if BreaksLine(s, p) then BreakOf(s.lineBreak) + Spaces(Margin(s)) else Spaces(Margin(s) - p.column)
  }

  function AfterIndent(s: Settings, p: Place): Place {
    Place(if BreaksLine(s, p) || p.column < Margin(s) then Margin(s) else p.column, true, true)
  }

  /**
   A space is written as a folded line break: lines may be broken, this one is too long, and it
   is inside the value.
   */
  predicate Folds(s: Settings, v: seq<int>, i: nat, p: Place, spaces: bool) {
    s.allowBreaks && !spaces && p.column > s.bestWidth && 0 < i < |v| - 1
  }

  function Moved(p: Place, n: int): Place { p.(column := p.column + n) }

  /** What character `i` becomes. */
  function CharText(s: Settings, v: seq<int>, i: nat, p: Place, spaces: bool): seq<int>
    requires i < |v|
  {
    if NeedsEscape(s, v, v[i]) then Escape(v[i])
    else if v[i] == SPACE && Folds(s, v, i, p, spaces) then
      IndentText(s, p) + (if v[i + 1] == SPACE then [BACKSLASH] else [])
    else [v[i]]
  }

  function AfterChar(s: Settings, v: seq<int>, i: nat, p: Place, spaces: bool): Place
    requires i < |v|
  {
    if NeedsEscape(s, v, v[i]) then Moved(p, |Escape(v[i])|)
    else if v[i] == SPACE && Folds(s, v, i, p, spaces) then Moved(AfterIndent(s, p), if v[i + 1] == SPACE then 1 else 0)
    else Moved(p, 1)
  }

  /** The text from character `i` on, and the closing quote. */
  function Body(s: Settings, v: seq<int>, i: nat, p: Place, spaces: bool): seq<int>
    requires i <= |v|
    decreases |v| - i
  {
    if i == |v| then [QUOTE]
    else
      CharText(s, v, i, p, spaces)
      + Body(s, v, i + 1, AfterChar(s, v, i, p, spaces), !NeedsEscape(s, v, v[i]) && v[i] == SPACE)
  }

  /** The opening quote, with a space before it if one is needed, and the body. */
  function Lead(p: Place): seq<int> { if p.whitespace then [] else [SPACE] }

  function AfterQuote(p: Place): Place { Place(p.column + |Lead(p)| + 1, false, false) }

  function FromStart(s: Settings, v: seq<int>, p: Place): seq<int> { Body(s, v, 0, p, false) }

  function Quoted(s: Settings, v: seq<int>, p: Place): seq<int> {
    [QUOTE] + FromStart(s, v, AfterQuote(p))
  }

  // ---------- scanning ----------

  /** The text ends in NULs. */
  function At(t: seq<int>, i: nat): int { if i < |t| then t[i] else 0 }

  predicate DocumentIndicator(t: seq<int>) {
    && (   (At(t, 0) == '-' as int && At(t, 1) == '-' as int && At(t, 2) == '-' as int)
        || (At(t, 0) == '.' as int && At(t, 1) == '.' as int && At(t, 2) == '.' as int))
    && IsBlankz(At(t, 3))
  }

  datatype Scanned = Done(value: seq<int>, rest: seq<int>) | Error

  predicate IsHex(c: int) { 0x30 <= c <= 0x39 || 0x41 <= c <= 0x46 || 0x61 <= c <= 0x66 }

  function HexValue(c: int): int {
    if 0x41 <= c <= 0x46 then c - 0x41 + 10 else if 0x61 <= c <= 0x66 then c - 0x61 + 10 else c - 0x30
  }

  /** The number written in the first `k` characters, if they are digits. */
  function ReadHex(t: seq<int>, k: nat, acc: int): Option<int> {
    if k == 0 then Some(acc)
    else if t == [] || !IsHex(t[0]) then None
    else ReadHex(t[1..], k - 1, acc * 16 + HexValue(t[0]))
  }

  /** What the character after a backslash stands for. */
  function Unletter(l: int): Option<int> {
    if l == '0' as int then Some(0x00)
    else if l == 'a' as int then Some(0x07)
    else if l == 'b' as int then Some(0x08)
    else if l == 't' as int || l == 0x09 then Some(0x09)
    else if l == 'n' as int then Some(0x0A)
    else if l == 'v' as int then Some(0x0B)
    else if l == 'f' as int then Some(0x0C)
    else if l == 'r' as int then Some(0x0D)
    else if l == 'e' as int then Some(0x1B)
    else if l == SPACE then Some(0x20)
    else if l == QUOTE then Some(QUOTE)
    else if l == '\'' as int then Some('\'' as int)
    else if l == BACKSLASH then Some(BACKSLASH)
    else if l == 'N' as int then Some(0x85)
    else if l == '_' as int then Some(0xA0)
    else if l == 'L' as int then Some(0x2028)
    else if l == 'P' as int then Some(0x2029)
    else None
  }

  function CodeLength(l: int): nat {
    if l == 'x' as int then 2 else if l == 'u' as int then 4 else if l == 'U' as int then 8 else 0
  }

  /** The character of the escape at the head of `t`, and how many characters it takes. */
  function Unescape(t: seq<int>): (r: Option<(int, nat)>)
    requires t != []
    ensures r.Some? ==> 2 <= r.value.1 <= |t|
  {
    if |t| == 1 then None
    else
      var l := t[1];
      var k := CodeLength(l);
      if k == 0 then
        (match Unletter(l)
         case Some(c) => Some((c, 2))
         case None => None)
      else if |t| < 2 + k then None
      else
        match ReadHex(t[2..], k, 0)
        case Some(c) => if Scalar(c) then Some((c, 2 + k)) else None
        case None => None
  }

  /** Characters a line break takes up. */
  function BreakWidth(t: seq<int>): (n: nat)
    requires t != []
    ensures 1 <= n <= |t|
  {
    if At(t, 0) == 0x0D && At(t, 1) == 0x0A then 2 else 1
  }

  /** What a line break reads as: itself for LS and PS, a line feed otherwise. */
  function BreakChar(c: int): int { if c == 0x2028 || c == 0x2029 then c else 0x0A }

  /** Blanks before a line break are dropped; a single break folds to a space, the first of several disappears. */
  function Joined(blanks: seq<int>, first: seq<int>, more: seq<int>, broken: bool): seq<int> {
    if !broken then blanks
    else if first != [] && first[0] == 0x0A then if more == [] then [SPACE] else more
    else first + more
  }

  /** The head of the outer loop. */
  function ScanLine(t: seq<int>, column: int, s: seq<int>): Scanned
    decreases |t|, if At(t, 0) == 0 then 0 else 2
  {
    if column == 0 && DocumentIndicator(t) then Error
    else if At(t, 0) == 0 then Error
    else ScanText(t, column, s)
  }

  /** The head of the loop over non-blank characters. */
  function ScanText(t: seq<int>, column: int, s: seq<int>): Scanned
    decreases |t|, if At(t, 0) == 0 then 2 else 1
  {
    var c := At(t, 0);
    if IsBlankz(c) then ScanBlanks(t, column, s, [], [], [], false)
    else if c == QUOTE then Done(s, t[1..])
    else if c == BACKSLASH && IsBreak(At(t, 1)) then
      var r := t[1 + BreakWidth(t[1..])..];
      if At(r, 0) == QUOTE then Done(s, r[1..]) else ScanBlanks(r, 0, s, [], [], [], true)
    else if c == BACKSLASH then
      match Unescape(t)
      case Some(e) => ScanText(t[e.1..], column + e.1, s + [e.0])
      case None => Error
    else ScanText(t[1..], column + 1, s + [c])
  }

  /** The head of the loop over blanks and line breaks. */
  function ScanBlanks(t: seq<int>, column: int, s: seq<int>, blanks: seq<int>, first: seq<int>, more: seq<int>,
                      broken: bool): Scanned
    decreases |t|, if IsBlank(At(t, 0)) || IsBreak(At(t, 0)) then 0 else if At(t, 0) == 0 then 1 else 3
  {
    var c := At(t, 0);
    if IsBlank(c) then
      ScanBlanks(t[1..], column + 1, s, if broken then blanks else blanks + [c], first, more, broken)
    else if IsBreak(c) then
      var r := t[BreakWidth(t)..];
      if !broken then ScanBlanks(r, 0, s, [], first + [BreakChar(c)], more, true)
      else ScanBlanks(r, 0, s, blanks, first, more + [BreakChar(c)], true)
    else ScanLine(t, column, s + Joined(blanks, first, more, broken))
  }

  /** `t` starts with the opening quote, which stands at `column`. */
  function ScanQuoted(t: seq<int>, column: int): Scanned
    requires t != []
  {
    ScanLine(t[1..], column + 1, [])
  }
}
