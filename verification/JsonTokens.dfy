/** White space, strings, numbers and words: the parser and the grammar take the same. */
module JsonTokens {
  import opened Bytes
  import opened JsonGrammar
  import opened JsonParse
  import opened JsonText
  import Utf8

  /** How far a parser has come. */
  function Taken(s: bytes, rest: bytes): nat
  {
    if |rest| <= |s| then |s| - |rest| else 0
  }

  predicate Leaves(s: bytes, rest: bytes)
  {
    |rest| <= |s| && s[Taken(s, rest)..] == rest
  }

  lemma {:induction false} SpaceTaken(s: bytes)
    ensures Leaves(s, SkipSpace(s)) && Blank(s[..Taken(s, SkipSpace(s))])
    ensures SkipSpace(s) == [] || !IsSpace(SkipSpace(s)[0])
  {
    if s != [] && IsSpace(s[0]) {
      SpaceTaken(s[1..]);
      var n := Taken(s[1..], SkipSpace(s[1..]));
      assert s[..n + 1] == [s[0]] + s[1..][..n];
    }
  }

  lemma HexTaken(c: byte)
    ensures HexValue(c).Some? ==> HexDigits(c, HexValue(c).value)
    ensures forall v: nat :: HexDigits(c, v) ==> HexValue(c) == Some(v)
  {
  }

  lemma FourTaken(s: bytes)
    ensures CodeUnit(s).Some? ==> |s| >= 4 && FourHex(s[..4], CodeUnit(s).value)
  {
    if CodeUnit(s).Some? {
      var h := s[..4];
      HexTaken(h[0]);
      HexTaken(h[1]);
      HexTaken(h[2]);
      HexTaken(h[3]);
      var a, b, c, d := HexValue(h[0]).value, HexValue(h[1]).value, HexValue(h[2]).value, HexValue(h[3]).value;
      assert CodeUnit(s).value == a * 0x1000 + b * 0x100 + c * 0x10 + d;
    }
  }

  lemma FourUnique(h: bytes, n: nat, tail: bytes)
    requires FourHex(h, n)
    ensures CodeUnit(h + tail) == Some(n)
  {
    HexTaken(h[0]);
    HexTaken(h[1]);
    HexTaken(h[2]);
    HexTaken(h[3]);
  }

  lemma UnicodeTaken(s: bytes)
    requires CodeUnit(s).Some?
    ensures |s| >= 4 && Unicode([0x5c, 0x75] + s[..4], CodeUnit(s).value)
  {
    FourTaken(s);
    assert ([0x5c, 0x75] + s[..4])[2..] == s[..4];
  }

  /** One escape, with its backslash. */
  lemma EscapeTaken(s: bytes)
    ensures ParseEscape(s).Some? ==>
              && Leaves(s, ParseEscape(s).value.rest)
              && Unit([0x5c] + s[..Taken(s, ParseEscape(s).value.rest)], ParseEscape(s).value.value)
  {
    hide CodeUnit, Unicode, Utf8.EncodeScalar;
    if ParseEscape(s).Some? && s[0] == 0x75 {
      var t := s[1..];
      UnicodeTaken(t);
      var n := CodeUnit(t).value;
      var u := [0x5c] + s[..Taken(s, ParseEscape(s).value.rest)];
      if 0xd800 <= n <= 0xdbff {
        UnicodeTaken(t[6..]);
        assert s[..11] == [0x75] + t[..4] + [0x5c, 0x75] + t[6..][..4];
        assert u[..6] == [0x5c, 0x75] + t[..4] && u[6..] == [0x5c, 0x75] + t[6..][..4];
      } else {
        assert s[..5] == [0x75] + t[..4];
        assert u == [0x5c, 0x75] + t[..4];
      }
    } else if ParseEscape(s).Some? {
      assert s[..1] == [s[0]];
    }
  }

  lemma SpellsMore(u: bytes, b: bytes, rest: bytes, more: bytes)
    requires u != [] && Unit(u, b) && Spells(rest, more)
    ensures Spells(u + rest, b + more)
  {
    hide Unit;
    var s, whole := u + rest, b + more;
    assert s[..|u|] == u && s[|u|..] == rest && whole[..|b|] == b && whole[|b|..] == more;
  }

  lemma StringStep(s: bytes, first: Parsed<bytes>, more: Parsed<bytes>)
    requires Leaves(s, first.rest) && Taken(s, first.rest) > 0 && Leaves(first.rest, more.rest)
    requires Unit(s[..Taken(s, first.rest)], first.value) && Taken(first.rest, more.rest) > 0
    requires var n := Taken(first.rest, more.rest);
             first.rest[n - 1] == QUOTE && Spells(first.rest[..n - 1], more.value)
    ensures var n := Taken(s, more.rest);
            && Leaves(s, more.rest) && n > 0 && s[n - 1] == QUOTE && Spells(s[..n - 1], first.value + more.value)
  {
    hide Unit, Spells;
    var k, n := Taken(s, first.rest), Taken(first.rest, more.rest);
    SpellsMore(s[..k], first.value, first.rest[..n - 1], more.value);
    assert s[..k + n - 1] == s[..k] + first.rest[..n - 1];
  }

  /** The first unit of a string, and what is left. */
  function FirstUnit(s: bytes): Option<Parsed<bytes>>
    requires s != []
  {
    if s[0] == BACKSLASH then ParseEscape(s[1..]) else Some(Parsed([s[0]], s[1..]))
  }

  lemma FirstTaken(s: bytes)
    requires s != [] && s[0] >= 0x20 && s[0] != QUOTE && FirstUnit(s).Some?
    ensures var first := FirstUnit(s).value;
            Leaves(s, first.rest) && Taken(s, first.rest) > 0 && Unit(s[..Taken(s, first.rest)], first.value)
  {
    hide ParseEscape, Unit;
    var first := FirstUnit(s).value;
    var k := Taken(s, first.rest);
    if s[0] == BACKSLASH {
      EscapeTaken(s[1..]);
      assert s[..k] == [0x5c] + s[1..][..k - 1];
    } else {
      PlainUnit(s[0]);
      assert s[..k] == [s[0]];
    }
  }

  lemma StringIs(s: bytes)
    requires ParseString(s).Some?
    ensures s != []
    ensures s[0] == QUOTE ==> ParseString(s).value == Parsed([], s[1..])
    ensures s[0] != QUOTE ==>
              && s[0] >= 0x20 && FirstUnit(s).Some?
              && var more := ParseString(FirstUnit(s).value.rest);
                 && more.Some?
                 && ParseString(s).value == Parsed(FirstUnit(s).value.value + more.value.value, more.value.rest)
  {
    hide ParseEscape;
  }

  /** The rest of a string up to its closing mark. */
  lemma {:induction false} StringTaken(s: bytes)
    ensures ParseString(s).Some? ==>
              var n := Taken(s, ParseString(s).value.rest);
              && Leaves(s, ParseString(s).value.rest) && n > 0 && s[n - 1] == QUOTE
              && Spells(s[..n - 1], ParseString(s).value.value)
  {
    hide ParseString, ParseEscape, FirstUnit, Unit, Spells;
    if ParseString(s).Some? {
      StringIs(s);
      if s[0] == QUOTE {
        assert s[..0] == [];
        EmptySpelled();
      } else {
        var first := FirstUnit(s).value;
        FirstTaken(s);
        StringTaken(first.rest);
        StringStep(s, first, ParseString(first.rest).value);
      }
    }
  }

  lemma EmptySpelled()
    ensures Spells([], [])
  {
  }

  lemma PlainUnit(c: byte)
    ensures c >= 0x20 && c != QUOTE && c != BACKSLASH ==> Unit([c], [c])
  {
  }

  lemma SimpleRead(u: bytes, b: bytes, tail: bytes)
    requires |u| == 2 && |b| == 1 && u[0] == 0x5c && Escapes(u[1], b[0])
    ensures ParseEscape(u[1..] + tail) == Some(Parsed(b, tail))
  {
    assert u[1..] + tail == [u[1]] + tail && ([u[1]] + tail)[1..] == tail && b == [b[0]];
  }

  lemma ScalarRead(u: bytes, n: nat, tail: bytes)
    requires Unicode(u, n) && !(0xd800 <= n <= 0xdfff)
    ensures ParseEscape(u[1..] + tail) == Some(Parsed(Utf8.EncodeScalar(n), tail))
  {
    hide Utf8.EncodeScalar, CodeUnit, FourHex;
    FourUnique(u[2..], n, tail);
    assert (u[1..] + tail)[1..] == u[2..] + tail && (u[2..] + tail)[4..] == tail;
  }

  lemma SurrogatesRead(u: bytes, high: nat, low: nat, tail: bytes)
    requires |u| == 12 && Unicode(u[..6], high) && Unicode(u[6..], low)
    requires 0xd800 <= high <= 0xdbff && 0xdc00 <= low <= 0xdfff
    ensures ParseEscape(u[1..] + tail)
         == Some(Parsed(Utf8.EncodeScalar(0x10000 + (high - 0xd800) * 0x400 + (low - 0xdc00)), tail))
  {
    hide Utf8.EncodeScalar, CodeUnit, FourHex;
    var s := (u[1..] + tail)[1..];
    assert s == u[..6][2..] + (u[6..] + tail) && s[6..] == u[6..][2..] + tail && s[10..] == tail;
    assert s[4] == u[6..][0] && s[5] == u[6..][1];
    FourUnique(u[..6][2..], high, u[6..] + tail);
    FourUnique(u[6..][2..], low, tail);
  }

  /** A unit in front of a string is read as its octets. */
  lemma UnitRead(u: bytes, b: bytes, tail: bytes)
    requires Unit(u, b)
    ensures u != [] && u[0] >= 0x20 && u[0] != QUOTE
    ensures u[0] == BACKSLASH ==> ParseEscape(u[1..] + tail) == Some(Parsed(b, tail))
    ensures u[0] != BACKSLASH ==> |u| == 1 && b == u
  {
    hide Utf8.EncodeScalar, ParseEscape, Escapes;
    if |u| == 6 {
      var n: nat :| Unicode(u, n) && !(0xd800 <= n <= 0xdfff) && b == Utf8.EncodeScalar(n);
      ScalarRead(u, n, tail);
    } else if |u| == 12 {
      var high: nat, low: nat :|
        && Unicode(u[..6], high) && Unicode(u[6..], low) && 0xd800 <= high <= 0xdbff && 0xdc00 <= low <= 0xdfff
        && b == Utf8.EncodeScalar(0x10000 + (high - 0xd800) * 0x400 + (low - 0xdc00));
      SurrogatesRead(u, high, low, tail);
    } else if |u| == 2 {
      SimpleRead(u, b, tail);
    }
  }

  lemma EndRead(tail: bytes)
    ensures ParseString([QUOTE] + tail) == Some(Parsed([], tail))
  {
    assert ([QUOTE] + tail)[1..] == tail;
  }

  lemma StringStepRead(whole: bytes, b: bytes, rest: bytes)
    requires whole != [] && whole[0] >= 0x20 && whole[0] != QUOTE
    requires whole[0] == BACKSLASH ==> ParseEscape(whole[1..]) == Some(Parsed(b, rest))
    requires whole[0] != BACKSLASH ==> b == [whole[0]] && whole[1..] == rest
    ensures ParseString(whole) == var more := ParseString(rest);
                                  if more.None? then None else Some(Parsed(b + more.value.value, more.value.rest))
  {
    hide ParseEscape;
  }

  lemma UnitsRead(s: bytes, b: bytes, k: nat, n: nat, tail: bytes)
    requires 0 < k <= |s| && n <= |b| && Unit(s[..k], b[..n])
    requires ParseString(s[k..] + [QUOTE] + tail) == Some(Parsed(b[n..], tail))
    ensures ParseString(s + [QUOTE] + tail) == Some(Parsed(b, tail))
  {
    hide ParseEscape, Unit, ParseString;
    var rest, whole := s[k..] + [QUOTE] + tail, s + [QUOTE] + tail;
    UnitRead(s[..k], b[..n], rest);
    assert whole[0] == s[..k][0] && whole[1..] == s[..k][1..] + rest;
    StringStepRead(whole, b[..n], rest);
    assert b == b[..n] + b[n..];
  }

  lemma {:induction false} StringRead(s: bytes, b: bytes, tail: bytes)
    requires Spells(s, b)
    ensures ParseString(s + [QUOTE] + tail) == Some(Parsed(b, tail))
    decreases |s|
  {
    hide ParseEscape, Unit, ParseString;
    if s == [] {
      EndRead(tail);
      assert s + [QUOTE] + tail == [QUOTE] + tail;
    } else {
      var k, n :| 0 < k <= |s| && 0 <= n <= |b| && Unit(s[..k], b[..n]) && Spells(s[k..], b[n..]);
      StringRead(s[k..], b[n..], tail);
      UnitsRead(s, b, k, n, tail);
    }
  }

  // Numbers.

  lemma {:induction false} NumberOfIs(d: bytes)
    requires forall c :: c in d ==> IsDigit(c)
    ensures NumberOf(d) == DigitsValue(d)
  {
    if d != [] {
      assert IsDigit(d[|d| - 1]);
      NumberOfIs(d[..|d| - 1]);
    }
  }

  lemma {:induction false} DigitsTaken(s: bytes)
    ensures Digits(s) > 0 ==> AllDigits(s[..Digits(s)])
    ensures Digits(s) == |s| || !IsDigit(s[Digits(s)])
  {
    if s != [] && IsDigit(s[0]) {
      DigitsTaken(s[1..]);
      assert s[..Digits(s)] == [s[0]] + s[1..][..Digits(s[1..])];
    }
  }

  lemma {:induction false} DigitsRead(d: bytes, rest: bytes)
    requires AllDigits(d) && (rest == [] || !IsDigit(rest[0]))
    ensures Digits(d + rest) == |d|
  {
    if |d| == 1 {
      assert (d + rest)[1..] == rest;
    } else {
      assert (d + rest)[1..] == d[1..] + rest;
      DigitsRead(d[1..], rest);
    }
  }

  lemma FractionTaken(s: bytes)
    ensures FractionSize(s).Some? ==>
              exists j ::
                && 0 <= j <= FractionSize(s).value && FractionPart(s[..j])
                && ExponentPart(s[j..FractionSize(s).value])
  {
    hide Digits;
    if FractionSize(s).Some? {
      var n := FractionSize(s).value;
      var j := if s != [] && s[0] == 0x2e then 1 + Digits(s[1..]) else 0;
      if j > 0 {
        DigitsTaken(s[1..]);
        assert s[..j][1..] == s[1..][..j - 1];
      }
      var e := s[j..];
      assert s[j..n] == e[..n - j];
      if n > j {
        var sign := if |e| > 1 && (e[1] == 0x2b || e[1] == MINUS) then 2 else 1;
        DigitsTaken(e[sign..]);
        assert e[..n - j][sign..] == e[sign..][..n - j - sign];
      }
      assert FractionPart(s[..j]) && ExponentPart(s[j..n]);
    }
  }

  lemma UnsignedOf(s: bytes, n: nat)
    requires n <= |s|
    ensures s != [] && s[0] == MINUS && n > 0 ==> Unsigned(s[..n]) == s[1..][..n - 1]
    ensures (s == [] || s[0] != MINUS) ==> Unsigned(s[..n]) == s[..n]
  {
  }

  lemma WholeTaken(s: bytes)
    requires var sign := if s != [] && s[0] == MINUS then 1 else 0;
             var t := s[sign..]; Digits(t) > 0 && (t[0] == 0x30 ==> Digits(t) == 1)
    ensures var sign := if s != [] && s[0] == MINUS then 1 else 0;
            var t := s[sign..];
            && (forall c :: c in t[..Digits(t)] ==> IsDigit(c))
            && Unsigned(s[..sign + Digits(t)]) == t[..Digits(t)] && Whole(t[..Digits(t)])
            && NumberOf(t[..Digits(t)]) == DigitsValue(t[..Digits(t)])
  {
    hide Digits, NumberOf, DigitsValue;
    var sign := if s != [] && s[0] == MINUS then 1 else 0;
    var t := s[sign..];
    DigitsAre(t);
    DigitsTaken(t);
    UnsignedOf(s, sign + Digits(t));
    NumberOfIs(t[..Digits(t)]);
  }

  lemma BrokenIs(t: bytes, i: nat, j: nat)
    requires var d := Unsigned(t);
             0 < i <= j <= |d| && i < |d| && Whole(d[..i]) && FractionPart(d[i..j]) && ExponentPart(d[j..])
    ensures Broken(t)
  {
    hide Unsigned, Whole, FractionPart, ExponentPart;
  }

  lemma Within(t: bytes, n: nat, j: nat, m: nat)
    requires n + m <= |t| && j <= m
    ensures t[..n + m][..n] == t[..n]
    ensures t[..n + m][n..n + j] == t[n..][..j]
    ensures t[..n + m][n + j..] == t[n..][j..m]
  {
    assert t[n..n + m] == t[n..][..m];
  }

  lemma BrokenTaken(s: bytes, sign: nat, n: nat, more: nat)
    requires sign == if s != [] && s[0] == MINUS then 1 else 0
    requires n > 0 && more > 0 && sign + n + more <= |s|
    requires Whole(s[sign..][..n]) && FractionSize(s[sign..][n..]) == Some(more)
    ensures Broken(s[..sign + n + more])
  {
    hide FractionSize, Whole, FractionPart, ExponentPart;
    var t := s[sign..];
    FractionTaken(t[n..]);
    var j :| 0 <= j <= more && FractionPart(t[n..][..j]) && ExponentPart(t[n..][j..more]);
    UnsignedOf(s, sign + n + more);
    var d := Unsigned(s[..sign + n + more]);
    assert d == t[..n + more];
    Within(t, n, j, more);
    BrokenIs(s[..sign + n + more], n, n + j);
  }

  lemma NumberTaken(s: bytes)
    ensures ParseNumber(s).Some? ==>
              Reached(s, ParseNumber(s).value)
  {
    hide Digits, NumberOf, DigitsValue, FractionSize, Broken, Whole, Unsigned;
    if ParseNumber(s).Some? {
      var sign := if s != [] && s[0] == MINUS then 1 else 0;
      var t := s[sign..];
      var n := Digits(t);
      WholeTaken(s);
      var more := FractionSize(t[n..]).value;
      if more > 0 {
        BrokenTaken(s, sign, n, more);
      }
    }
  }

  /** What was parsed stands in front of what is left. */
  ghost predicate Reached(s: bytes, p: Parsed<Json>)
  {
    Leaves(s, p.rest) && Value(s[..Taken(s, p.rest)], p.value)
  }

  // Values.

  lemma WordTaken(s: bytes)
    ensures Starts(s, Text("true")) ==> Value(s[..4], Bool(true)) && Leaves(s, s[4..]) && Taken(s, s[4..]) == 4
    ensures Starts(s, Text("false")) ==> Value(s[..5], Bool(false)) && Leaves(s, s[5..]) && Taken(s, s[5..]) == 5
    ensures Starts(s, Text("null")) ==> Value(s[..4], Null) && Leaves(s, s[4..]) && Taken(s, s[4..]) == 4
  {
  }

  lemma LeavesOn(s: bytes, t: bytes, rest: bytes)
    requires Leaves(s, t) && Leaves(t, rest)
    ensures Leaves(s, rest) && Taken(s, rest) == Taken(s, t) + Taken(t, rest)
    ensures s[..Taken(s, rest)] == s[..Taken(s, t)] + t[..Taken(t, rest)]
  {
  }

  lemma StringValue(s: bytes)
    requires s != [] && s[0] == QUOTE && ParseString(s[1..]).Some?
    ensures Reached(s, Parsed(Str(ParseString(s[1..]).value.value), ParseString(s[1..]).value.rest))
  {
    hide ParseString, Spells;
    StringTaken(s[1..]);
    var rest := ParseString(s[1..]).value.rest;
    var n := Taken(s[1..], rest);
    assert s[..n + 1][1..n] == s[1..][..n - 1];
  }

  // What the producer prints is a spelling, and the shortest there is.

  lemma EscapeIsUnit(c: byte)
    ensures Unit(EscapeByte(c), [c])
  {
    var e := EscapeByte(c);
    if |e| == 6 {
      var a, b := c / 16, c % 16;
      assert HexDigits(e[2], 0) && HexDigits(e[3], 0) && HexDigits(e[4], a) && HexDigits(e[5], b);
      assert e[2..] == [e[2], e[3], e[4], e[5]];
      assert FourHex(e[2..], c);
      assert Unicode(e, c) && Utf8.EncodeScalar(c) == [c];
    }
  }

  lemma {:induction false} EscapeSpells(b: bytes)
    ensures Spells(Escape(b), b)
  {
    hide EscapeByte, Unit, Spells;
    if b == [] {
      EmptySpelled();
    } else {
      EscapeIsUnit(b[0]);
      EscapeSpells(b[1..]);
      SpellsMore(EscapeByte(b[0]), [b[0]], Escape(b[1..]), b[1..]);
      assert [b[0]] + b[1..] == b;
    }
  }

  /** No octet can be spelled with fewer characters. */
  lemma EscapeIsShortest(c: byte, u: bytes)
    requires Unit(u, [c])
    ensures |EscapeByte(c)| <= |u|
  {
    hide FourHex, Utf8.EncodeScalar;
  }
}
