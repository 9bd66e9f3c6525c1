/** The scanner reading a double-quoted scalar, character by character, proved against the reading on values. */
module QuotedScanner {
  import opened Wrappers
  import opened Utf8
  import opened QuotedSpec

  /** Why the run of non-blank characters ended; `broken`: by an escaped line break. */
  datatype Stop = AtQuote | AtBlank(broken: bool) | Failed

  class ScalarScanner {
    const text: seq<int>
    var pos: nat
    var column: int

    ghost predicate Valid()
      reads this
    {
      pos <= |text|
    }

    function Rest(): seq<int>
      requires Valid()
      reads this
    {
      text[pos..]
    }

    constructor (text: seq<int>)
      ensures Valid() && Rest() == text && column == 0
    {
      this.text, pos, column := text, 0, 0;
      new;
      assert text[0..] == text;
    }

    method Skip(n: nat)
      requires Valid() && pos + n <= |text|
      modifies this
      ensures Valid() && pos == old(pos) + n && Rest() == old(Rest())[n..] && column == old(column) + n
    {
      pos, column := pos + n, column + n;
    }

    method SkipLine()
      requires Valid() && Rest() != []
      modifies this
      ensures Valid() && Rest() == old(Rest())[BreakWidth(old(Rest()))..] && column == 0 && pos > old(pos)
    {
      if At(text, pos) == 0x0D && At(text, pos + 1) == 0x0A {
        pos := pos + 2;
      } else {
        pos := pos + 1;
      }
      column := 0;
    }

    /** The digits of a numeric escape, after its letter. */
    method ReadCode(k: nat) returns (code: Option<int>)
      requires Valid()
      ensures code == ReadHex(Rest(), k, 0)
    {
      var value, i := 0, 0;
      assert Rest()[0..] == Rest();
      while i < k
        invariant i <= k && pos + i <= |text| && ReadHex(Rest()[i..], k - i, value) == ReadHex(Rest(), k, 0)
      {
        var c := At(text, pos + i);
        assert pos + i < |text| ==> Rest()[i..][0] == c;
        if !IsHex(c) { return None; }
        assert Rest()[i..][1..] == Rest()[i + 1..];
        value := value * 16 + HexValue(c);
        i := i + 1;
      }
      return Some(value);
    }

    /** An escape sequence; its character is returned. */
    method ScanEscape() returns (c: Option<int>)
      requires Valid() && At(Rest(), 0) == BACKSLASH
      modifies this
      ensures Valid() && pos >= old(pos)
      ensures match Unescape(old(Rest()))
              case Some(e) =>
                c == Some(e.0) && Rest() == old(Rest())[e.1..] && column == old(column) + e.1
                && pos == old(pos) + e.1
              case None => c == None
    {
      if pos + 1 >= |text| { return None; }
      var l := text[pos + 1];
      var k := CodeLength(l);
      if k == 0 {
        c := Unletter(l);
        if c == None { return; }
        Skip(2);
      } else {
        if |text| < pos + 2 + k { return None; }
        ghost var t := Rest();
        Skip(2);
        c := ReadCode(k);
        if c == None { return; }
        if !Scalar(c.value) { return None; }
        Skip(k);
        assert t[2..][k..] == t[2 + k..];
      }
    }

    /** The inner loop over non-blank characters. */
    method ScanNonBlanks(s: seq<int>) returns (value: seq<int>, stop: Stop)
      requires Valid()
      modifies this
      ensures Valid() && pos >= old(pos)
      ensures stop.Failed? ==> ScanText(old(Rest()), old(column), s) == Error
      ensures stop.AtQuote? ==>
                At(Rest(), 0) == QUOTE && ScanText(old(Rest()), old(column), s) == Done(value, Rest()[1..])
      ensures stop.AtBlank? ==>
                ScanText(old(Rest()), old(column), s) == ScanBlanks(Rest(), column, value, [], [], [], stop.broken)
      ensures stop.AtBlank? && pos == old(pos) ==> IsBlankz(At(Rest(), 0))
    {
      value := s;
      while !IsBlankz(At(text, pos))
        invariant Valid() && pos >= old(pos) && ScanText(Rest(), column, value) == ScanText(old(Rest()), old(column), s)
        decreases |text| - pos
      {
        var end;
        value, end := ScanNonBlank(value);
        if end.Some? { return value, end.value; }
      }
      return value, AtBlank(false);
    }

    /** One turn of that loop: a character, an escape, or one of the ways the loop is left. */
    method ScanNonBlank(before: seq<int>) returns (value: seq<int>, end: Option<Stop>)
      requires Valid() && !IsBlankz(At(text, pos))
      modifies this
      ensures Valid() && pos >= old(pos)
      ensures end.None? ==>
                pos > old(pos) && ScanText(Rest(), column, value) == ScanText(old(Rest()), old(column), before)
      ensures end == Some(Failed) ==> ScanText(old(Rest()), old(column), before) == Error
      ensures end == Some(AtQuote) ==>
                At(Rest(), 0) == QUOTE && ScanText(old(Rest()), old(column), before) == Done(value, Rest()[1..])
      ensures end.Some? && end.value.AtBlank? ==>
                && pos > old(pos)
                && ScanText(old(Rest()), old(column), before)
                   == ScanBlanks(Rest(), column, value, [], [], [], end.value.broken)
    {
      ghost var t := Rest();
      assert At(t, 0) == At(text, pos) && At(t, 1) == At(text, pos + 1);
      value, end := before, None;
      if At(text, pos) == QUOTE {
        end := Some(AtQuote);
      } else if At(text, pos) == BACKSLASH && IsBreak(At(text, pos + 1)) {
        Skip(1);
        SkipLine();
        assert Rest() == t[1 + BreakWidth(t[1..])..];
        end := Some(if At(text, pos) == QUOTE then AtQuote else AtBlank(true));
      } else if At(text, pos) == BACKSLASH {
        var c := ScanEscape();
        if c == None { return value, Some(Failed); }
        value := value + [c.value];
      } else {
        value := value + [text[pos]];
        Skip(1);
      }
    }

    /** The loop over blanks and line breaks; what they come to is returned. */
    method ScanSpace(ghost s: seq<int>, leadingBreak: bool) returns (joined: seq<int>)
      requires Valid()
      modifies this
      ensures Valid() && pos >= old(pos)
      ensures ScanBlanks(old(Rest()), old(column), s, [], [], [], leadingBreak) == ScanLine(Rest(), column, s + joined)
      ensures IsBlank(At(old(Rest()), 0)) || IsBreak(At(old(Rest()), 0)) ==> pos > old(pos)
    {
      var blanks: seq<int>, first: seq<int>, more: seq<int>, broken := [], [], [], leadingBreak;
      while IsBlank(At(text, pos)) || IsBreak(At(text, pos))
        invariant Valid() && pos >= old(pos)
        invariant pos == old(pos) ==> Rest() == old(Rest())
        invariant ScanBlanks(Rest(), column, s, blanks, first, more, broken)
                  == ScanBlanks(old(Rest()), old(column), s, [], [], [], leadingBreak)
        decreases |text| - pos
      {
        var c := At(text, pos);
        assert c == At(Rest(), 0);
        if IsBlank(c) {
          if !broken {
            blanks := blanks + [c];
          }
          Skip(1);
        } else {
          if !broken {
            blanks := [];
            first := first + [BreakChar(c)];
            broken := true;
          } else {
            more := more + [BreakChar(c)];
          }
          SkipLine();
        }
      }
      assert At(Rest(), 0) == At(text, pos);
      joined := Joined(blanks, first, more, broken);
    }

    /** The scalar whose opening quote is next. */
    method ScanFlowScalar() returns (value: Option<seq<int>>)
      requires Valid() && Rest() != []
      modifies this
      ensures Valid()
      ensures match ScanQuoted(old(Rest()), old(column))
              case Done(v, rest) => value == Some(v) && Rest() == rest
              case Error => value == None
    {
      Skip(1);
      var s: seq<int> := [];
      while true
        invariant Valid() && ScanLine(Rest(), column, s) == ScanQuoted(old(Rest()), old(column))
        decreases |text| - pos
      {
        if column == 0 && DocumentIndicator(text[pos..]) { return None; }
        assert At(Rest(), 0) == At(text, pos);
        if At(text, pos) == 0 { return None; }
        ghost var start := pos;
        var stop;
        s, stop := ScanNonBlanks(s);
        if stop.Failed? { return None; }
        if stop.AtQuote? {
          Skip(1);
          return Some(s);
        }
        assert pos == start ==> IsBlank(At(Rest(), 0)) || IsBreak(At(Rest(), 0));
        var joined := ScanSpace(s, stop.broken);
        s := s + joined;
      }
    }
  }
}
