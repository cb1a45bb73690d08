/** Whatever the grammar derives is read, unless an object in it repeats a name; and nothing else is. */
module JsonTheorem {
  import opened Bytes
  import opened JsonDerived
  import opened JsonGrammar
  import opened JsonObjects
  import opened JsonParse
  import opened JsonText
  import opened JsonTokens
  import Utf8

  /** What can stand behind a value. */
  predicate Stops(rest: bytes)
  {
    rest == [] || IsSpace(rest[0]) || Delimited(rest)
  }

  lemma {:induction false} BlankSkipped(w: bytes, s: bytes)
    requires Blank(w)
    ensures SkipSpace(w + s) == SkipSpace(s)
  {
    if w == [] {
      assert w + s == s;
    } else {
      assert (w + s)[1..] == w[1..] + s;
      BlankSkipped(w[1..], s);
    }
  }

  lemma NoSpace(s: bytes)
    requires s == [] || !IsSpace(s[0])
    ensures SkipSpace(s) == s
  {
  }

  lemma {:induction false} OnlyBlank(w: bytes)
    ensures Blank(w) <==> SkipSpace(w) == []
  {
    if w != [] && IsSpace(w[0]) {
      OnlyBlank(w[1..]);
      assert w == [w[0]] + w[1..];
    }
  }

  lemma StopsAfter(w: bytes, tail: bytes)
    requires Blank(w) && tail != [] && (tail[0] == COMMA || tail[0] == CLOSE_BRACE || tail[0] == CLOSE_BRACKET)
    ensures Stops(w + tail)
  {
    assert w == [] ==> w + tail == tail;
  }

  lemma FractionPartRead(f: bytes, rest: bytes)
    requires FractionPart(f) && f != [] && (rest == [] || !IsDigit(rest[0]))
    ensures (f + rest)[0] == 0x2e && 1 + Digits((f + rest)[1..]) == |f| && |f| > 1
  {
    hide Digits;
    DigitsRead(f[1..], rest);
    assert (f + rest)[1..] == f[1..] + rest;
  }

  lemma ExponentPartRead(e: bytes, rest: bytes)
    requires ExponentPart(e) && e != [] && Stops(rest)
    ensures var t := e + rest;
            var sign := if |t| > 1 && (t[1] == 0x2b || t[1] == MINUS) then 2 else 1;
            (t[0] == 0x65 || t[0] == 0x45) && |e| > sign && Digits(t[sign..]) == |e| - sign
  {
    hide Digits;
    var t := e + rest;
    if AllDigits(e[1..]) {
      DigitsRead(e[1..], rest);
      assert t[1..] == e[1..] + rest && t[1] == e[1..][0];
    } else {
      DigitsRead(e[2..], rest);
      assert t[2..] == e[2..] + rest;
    }
  }

  lemma FractionRead(f: bytes, e: bytes, rest: bytes)
    requires FractionPart(f) && ExponentPart(e) && Stops(rest)
    ensures FractionSize(f + (e + rest)) == Some(|f| + |e|)
  {
    hide Digits, AllDigits, FractionPart, ExponentPart, Stops;
    EmptyParts();
    PartsStart(f, e, rest);
    var s := f + (e + rest);
    NoDigitNext([], e, rest);
    assert [] + (e + rest) == e + rest;
    if f != [] {
      FractionPartRead(f, e + rest);
    } else {
      assert s == e + rest;
    }
    assert s[|f|..] == e + rest;
    if e != [] {
      ExponentPartRead(e, rest);
    } else {
      assert e + rest == rest;
    }
  }

  lemma PartsStart(f: bytes, e: bytes, rest: bytes)
    requires FractionPart(f) && ExponentPart(e) && Stops(rest)
    ensures rest == [] || (rest[0] != 0x2e && rest[0] != 0x65 && rest[0] != 0x45)
    ensures e != [] ==> e[0] != 0x2e
  {
    hide AllDigits;
  }

  lemma NumberStarts(t: bytes, i: nat)
    requires var d := Unsigned(t); 0 < i <= |d| && Whole(d[..i])
    ensures t != [] && (IsDigit(t[0]) || t[0] == MINUS)
  {
    assert Unsigned(t)[..i][0] == Unsigned(t)[0];
  }

  lemma StartsNumber(s: bytes)
    requires s != [] && (IsDigit(s[0]) || s[0] == MINUS)
    ensures ParseValue(s) == ParseNumber(s)
  {
    hide ParseNumber;
    assert Text("true")[0] == 0x74 && Text("false")[0] == 0x66 && Text("null")[0] == 0x6e;
  }

  /** The digits in front are found, with a sign or without. */
  lemma WholeRead(t: bytes, i: nat, rest: bytes)
    requires var d := Unsigned(t); 0 < i <= |d| && Whole(d[..i])
    requires var more := Unsigned(t)[i..] + rest; more == [] || !IsDigit(more[0])
    ensures var s := t + rest;
            var sign := if s != [] && s[0] == MINUS then 1 else 0;
            && |t| == sign + |Unsigned(t)| && s[sign..] == Unsigned(t) + rest && Digits(s[sign..]) == i
            && (s[sign] == 0x30 ==> i == 1)
  {
    hide Digits;
    var d := Unsigned(t);
    DigitsRead(d[..i], d[i..] + rest);
    assert d + rest == d[..i] + (d[i..] + rest);
    assert d[..i][0] == d[0];
  }

  lemma IntegerRead(t: bytes, n: int, rest: bytes)
    requires Value(t, Integer(n)) && Stops(rest)
    ensures ParseNumber(t + rest) == Some(Parsed(Integer(n), rest))
  {
    hide Digits, NumberOf, DigitsValue, FractionSize, Whole, FractionPart, ExponentPart, Unsigned;
    EmptyParts();
    NoDigitNext([], [], rest);
    var d := Unsigned(t);
    assert d[..|d|] == d && d[|d|..] + rest == rest;
    WholeIsDigits(d);
    WholeRead(t, |d|, rest);
    FractionRead([], [], rest);
    assert [] + ([] + rest) == rest;
    NumberOfIs(d);
    var sign := |t| - |d|;
    var s := (t + rest)[sign..];
    assert s[..|d|] == d && s[|d|..] == rest;
  }

  lemma EmptyParts()
    ensures FractionPart([]) && ExponentPart([])
  {
  }

  lemma WholeIsDigits(d: bytes)
    requires Whole(d)
    ensures d != [] && forall c :: c in d ==> IsDigit(c)
  {
  }

  lemma BrokenCut(t: bytes) returns (i: nat, j: nat)
    requires Broken(t)
    ensures var d := Unsigned(t);
            0 < i <= j <= |d| && i < |d| && Whole(d[..i]) && FractionPart(d[i..j]) && ExponentPart(d[j..])
  {
    hide Whole, FractionPart, ExponentPart, Unsigned;
    var d := Unsigned(t);
    i, j :| 0 < i <= j <= |d| && i < |d| && Whole(d[..i]) && FractionPart(d[i..j]) && ExponentPart(d[j..]);
  }

  lemma NoDigitNext(f: bytes, e: bytes, rest: bytes)
    requires FractionPart(f) && ExponentPart(e) && Stops(rest)
    ensures f + (e + rest) == [] || !IsDigit((f + (e + rest))[0])
  {
    assert f == [] ==> f + (e + rest) == e + rest;
    assert e == [] ==> e + rest == rest;
  }

  lemma Joined(d: bytes, rest: bytes, i: nat)
    requires i <= |d|
    ensures (d + rest)[i..] == d[i..] + rest && (d + rest)[|d|..] == rest && (d + rest)[..|d|] == d
  {
  }

  lemma BrokenRead(t: bytes, rest: bytes)
    requires Broken(t) && Stops(rest)
    ensures ParseNumber(t + rest) == Some(Parsed(Fraction(t), rest))
  {
    hide Digits, NumberOf, DigitsValue, FractionSize, Whole, FractionPart, ExponentPart, Stops, Broken, Unsigned;
    var i, j := BrokenCut(t);
    var d := Unsigned(t);
    NoDigitNext(d[i..j], d[j..], rest);
    FractionRead(d[i..j], d[j..], rest);
    assert d[i..] + rest == d[i..j] + (d[j..] + rest);
    WholeRead(t, i, rest);
    var sign := |t| - |d|;
    var s := (t + rest)[sign..];
    assert s == d + rest;
    Joined(d, rest, i);
    Joined(t, rest, |t|);
  }

  lemma WordRead(rest: bytes)
    ensures ParseValue(Text("true") + rest) == Some(Parsed(Bool(true), rest))
    ensures ParseValue(Text("false") + rest) == Some(Parsed(Bool(false), rest))
    ensures ParseValue(Text("null") + rest) == Some(Parsed(Null, rest))
  {
    hide ParseNumber, ParseString, ParseArray, ParseObject;
    TrueRead(rest);
    FalseRead(rest);
    NullRead(rest);
  }

  lemma StartsOtherwise(s: bytes, word: bytes)
    requires s != [] && word != [] && s[0] != word[0]
    ensures !Starts(s, word)
  {
    assert |word| <= |s| ==> s[..|word|][0] == s[0];
  }

  lemma TrueRead(rest: bytes)
    ensures ParseValue(Text("true") + rest) == Some(Parsed(Bool(true), rest))
  {
    var s := Text("true") + rest;
    assert Text("true")[0] == 0x74;
    assert s[..4] == Text("true") && s[4..] == rest;
  }

  lemma FalseRead(rest: bytes)
    ensures ParseValue(Text("false") + rest) == Some(Parsed(Bool(false), rest))
  {
    var s := Text("false") + rest;
    assert Text("false")[0] == 0x66 && Text("true")[0] == 0x74;
    assert s[..5] == Text("false") && s[5..] == rest && s[..4][0] == 0x66;
  }

  lemma NullRead(rest: bytes)
    ensures ParseValue(Text("null") + rest) == Some(Parsed(Null, rest))
  {
    var s := Text("null") + rest;
    assert Text("false")[0] == 0x66 && Text("true")[0] == 0x74 && Text("null")[0] == 0x6e;
    assert s[..4] == Text("null") && s[4..] == rest && s[..4][0] == 0x6e;
    StartsOtherwise(s, Text("false"));
  }

  lemma StringValueRead(t: bytes, b: bytes, rest: bytes)
    requires Value(t, Str(b))
    ensures t[0] == QUOTE && ParseString((t + rest)[1..]) == Some(Parsed(b, rest))
  {
    hide ParseString, Spells;
    StringRead(t[1..|t| - 1], b, rest);
    assert (t + rest)[1..] == t[1..|t| - 1] + [QUOTE] + rest;
  }

  /** What reading a value comes to. */
  function ValueOr(j: Json, rest: bytes): Option<Parsed<Json>>
  {
    if Unambiguous(j) then Some(Parsed(j, rest)) else None
  }

  lemma EmptyFine()
    ensures Unambiguous(Array([])) && Unambiguous(Object([]))
  {
  }

  /** What reading a list from its first element on comes to. */
  function ItemsOr(all: seq<Json>, rest: bytes): Option<Parsed<seq<Json>>>
  {
    if AllUnambiguous(all) then Some(Parsed(all, rest)) else None
  }

  lemma ItemsFirst(all: seq<Json>)
    requires all != []
    ensures |all| == 1 ==> (AllUnambiguous(all) <==> Unambiguous(all[0]))
    ensures AllUnambiguous(all) <==> Unambiguous(all[0]) && AllUnambiguous(all[1..])
  {
    hide Unambiguous;
    var more := all[1..];
    if Unambiguous(all[0]) && AllUnambiguous(more) {
      assert forall i :: 0 < i < |all| ==> all[i] == more[i - 1];
    }
    if AllUnambiguous(all) {
      forall i | 0 <= i < |more| ensures Unambiguous(more[i]) {
        assert more[i] == all[i + 1];
      }
    }
  }

  lemma ItemsEndRead(v: bytes, w: bytes, first: Json, rest: bytes)
    requires Blank(w)
    requires ParseValue(v + (w + [CLOSE_BRACKET] + rest)) ==
             if Unambiguous(first) then Some(Parsed(first, w + [CLOSE_BRACKET] + rest)) else None
    ensures ParseItems(v + (w + [CLOSE_BRACKET] + rest)) == ItemsOr([first], rest)
  {
    hide ParseValue, Unambiguous, Blank, SkipSpace;
    ItemsFirst([first]);
    BlankSkipped(w, [CLOSE_BRACKET] + rest);
    assert w + [CLOSE_BRACKET] + rest == w + ([CLOSE_BRACKET] + rest);
    NoSpace([CLOSE_BRACKET] + rest);
    assert ([CLOSE_BRACKET] + rest)[1..] == rest;
  }

  lemma ItemsStepRead(s: bytes, first: Json, more: seq<Json>, after: bytes, rest: bytes)
    requires SkipSpace(after) != [] && SkipSpace(after)[0] == COMMA && more != []
    requires ParseValue(s) == if Unambiguous(first) then Some(Parsed(first, after)) else None
    requires ParseItems(SkipSpace(SkipSpace(after)[1..])) == ItemsOr(more, rest)
    ensures ParseItems(s) == ItemsOr([first] + more, rest)
  {
    hide ParseValue, Unambiguous, SkipSpace, AllUnambiguous;
    ItemsFirst([first] + more);
    assert ([first] + more)[1..] == more;
  }

  /** A list with its closing mark is read as its elements. */
  lemma {:induction false} ItemsRead(s: bytes, all: seq<Json>, rest: bytes)
    requires all != [] && Items(s, all)
    ensures ParseItems(SkipSpace(s + [CLOSE_BRACKET] + rest)) == ItemsOr(all, rest)
    ensures SkipSpace(s + [CLOSE_BRACKET] + rest) != [] && SkipSpace(s + [CLOSE_BRACKET] + rest)[0] != CLOSE_BRACKET
    decreases |s|, 2
  {
    hide Value, Blank, ParseItems, ParseValue, SkipSpace, ItemsOr, Unambiguous, Items;
    var a, b, c := ItemsCut(s, all);
    var whole := s + [CLOSE_BRACKET] + rest;
    var v := s[a..b];
    if |all| == 1 {
      var after := s[b..c] + [CLOSE_BRACKET] + rest;
      assert after == s[b..c] + ([CLOSE_BRACKET] + rest);
      StopsAfter(s[b..c], [CLOSE_BRACKET] + rest);
      ValueRead(v, all[0], after);
      assert whole == s[..a] + (v + after);
      BlankSkipped(s[..a], v + after);
      NoSpace(v + after);
      ItemsEndRead(v, s[b..c], all[0], rest);
      assert all == [all[0]];
    } else {
      var next := s[c + 1..] + [CLOSE_BRACKET] + rest;
      var after := s[b..c] + ([COMMA] + next);
      StopsAfter(s[b..c], [COMMA] + next);
      ValueRead(v, all[0], after);
      assert whole == s[..a] + (v + after);
      BlankSkipped(s[..a], v + after);
      NoSpace(v + after);
      BlankSkipped(s[b..c], [COMMA] + next);
      NoSpace([COMMA] + next);
      assert ([COMMA] + next)[1..] == next;
      ItemsRead(s[c + 1..], all[1..], rest);
      ItemsStepRead(v + after, all[0], all[1..], after, rest);
      assert all == [all[0]] + all[1..];
    }
  }

  lemma ItemsCut(s: bytes, all: seq<Json>) returns (a: nat, b: nat, c: nat)
    requires all != [] && Items(s, all)
    ensures ItemsAt(s, all, a, b, c)
  {
    hide ItemsAt;
    var i, j, k :| ItemsAt(s, all, i, j, k);
    ItemsRange(s, all, i, j, k);
    a, b, c := i, j, k;
  }

  lemma ItemsRange(s: bytes, all: seq<Json>, i: int, j: int, k: int)
    requires all != [] && ItemsAt(s, all, i, j, k)
    ensures 0 <= i <= j <= k <= |s|
  {
    hide Blank, Value;
  }

  lemma ArrayEmptyRead(s: bytes, w: bytes, rest: bytes)
    requires Blank(w) && s == w + [CLOSE_BRACKET] + rest
    ensures ParseArray(s) == Some(Parsed(Array([]), rest))
  {
    hide Blank, SkipSpace, ParseItems;
    BlankSkipped(w, [CLOSE_BRACKET] + rest);
    assert s == w + ([CLOSE_BRACKET] + rest);
    NoSpace([CLOSE_BRACKET] + rest);
    assert ([CLOSE_BRACKET] + rest)[1..] == rest;
  }

  lemma ArrayFullRead(s: bytes, all: seq<Json>, rest: bytes)
    requires SkipSpace(s) != [] && SkipSpace(s)[0] != CLOSE_BRACKET && ParseItems(SkipSpace(s)) == ItemsOr(all, rest)
    ensures ParseArray(s) == ValueOr(Array(all), rest)
  {
    hide SkipSpace, ParseItems;
  }

  lemma {:induction false} ArrayRead(t: bytes, all: seq<Json>, rest: bytes)
    requires Value(t, Array(all))
    ensures t[0] == OPEN_BRACKET && ParseValue(t + rest) == ValueOr(Array(all), rest)
    decreases |t|, 0
  {
    hide Blank, SkipSpace, ParseArray, ParseItems, Items, ItemsOr, Unambiguous, DistinctNames;
    var s, body := (t + rest)[1..], t[1..|t| - 1];
    assert s == body + [CLOSE_BRACKET] + rest;
    if all == [] {
      ArrayEmptyRead(s, body, rest);
      EmptyFine();
    } else {
      ItemsRead(body, all, rest);
      ArrayFullRead(s, all, rest);
    }
  }

  /** What reading a list from its first element on comes to. */
  function MembersOr(all: seq<Member>, rest: bytes): Option<Parsed<seq<Member>>>
  {
    if MembersUnambiguous(all) then Some(Parsed(all, rest)) else None
  }

  lemma MembersFirst(all: seq<Member>)
    requires all != []
    ensures |all| == 1 ==> (MembersUnambiguous(all) <==> Unambiguous(all[0].value))
    ensures MembersUnambiguous(all) <==>
              Unambiguous(all[0].value) && MembersUnambiguous(all[1..]) && !Named(all[1..], all[0].name)
  {
    hide Unambiguous;
    var more := all[1..];
    if Unambiguous(all[0].value) && MembersUnambiguous(more) && !Named(more, all[0].name) {
      assert forall i :: 0 < i < |all| ==> all[i] == more[i - 1];
    }
    if MembersUnambiguous(all) {
      forall i | 0 <= i < |more| ensures Unambiguous(more[i].value) && more[i].name != all[0].name {
        assert more[i] == all[i + 1];
      }
    }
  }

  lemma MembersEndRead(v: bytes, w: bytes, first: Member, rest: bytes)
    requires Blank(w)
    requires ParseMember(v + (w + [CLOSE_BRACE] + rest)) ==
             if Unambiguous(first.value) then Some(Parsed(first, w + [CLOSE_BRACE] + rest)) else None
    ensures ParseMembers(v + (w + [CLOSE_BRACE] + rest)) == MembersOr([first], rest)
  {
    hide ParseMember, Unambiguous, Blank, SkipSpace;
    MembersFirst([first]);
    BlankSkipped(w, [CLOSE_BRACE] + rest);
    assert w + [CLOSE_BRACE] + rest == w + ([CLOSE_BRACE] + rest);
    NoSpace([CLOSE_BRACE] + rest);
    assert ([CLOSE_BRACE] + rest)[1..] == rest;
  }

  lemma MembersStepRead(s: bytes, first: Member, more: seq<Member>, after: bytes, rest: bytes)
    requires SkipSpace(after) != [] && SkipSpace(after)[0] == COMMA && more != []
    requires ParseMember(s) == if Unambiguous(first.value) then Some(Parsed(first, after)) else None
    requires ParseMembers(SkipSpace(SkipSpace(after)[1..])) == MembersOr(more, rest)
    ensures ParseMembers(s) == MembersOr([first] + more, rest)
  {
    hide ParseMember, Unambiguous, SkipSpace, MembersUnambiguous, Named;
    MembersFirst([first] + more);
    assert ([first] + more)[1..] == more;
  }

  /** A list with its closing mark is read as its elements. */
  lemma {:induction false} MembersRead(s: bytes, all: seq<Member>, rest: bytes)
    requires all != [] && Members(s, all)
    ensures ParseMembers(SkipSpace(s + [CLOSE_BRACE] + rest)) == MembersOr(all, rest)
    ensures SkipSpace(s + [CLOSE_BRACE] + rest) != [] && SkipSpace(s + [CLOSE_BRACE] + rest)[0] != CLOSE_BRACE
    decreases |s|, 2
  {
    hide Pair, Blank, ParseMembers, ParseMember, SkipSpace, MembersOr, Unambiguous, Members;
    var a, b, c := MembersCut(s, all);
    var whole := s + [CLOSE_BRACE] + rest;
    var v := s[a..b];
    if |all| == 1 {
      var after := s[b..c] + [CLOSE_BRACE] + rest;
      assert after == s[b..c] + ([CLOSE_BRACE] + rest);
      StopsAfter(s[b..c], [CLOSE_BRACE] + rest);
      MemberRead(v, all[0], after);
      assert whole == s[..a] + (v + after);
      BlankSkipped(s[..a], v + after);
      NoSpace(v + after);
      MembersEndRead(v, s[b..c], all[0], rest);
      assert all == [all[0]];
    } else {
      var next := s[c + 1..] + [CLOSE_BRACE] + rest;
      var after := s[b..c] + ([COMMA] + next);
      StopsAfter(s[b..c], [COMMA] + next);
      MemberRead(v, all[0], after);
      assert whole == s[..a] + (v + after);
      BlankSkipped(s[..a], v + after);
      NoSpace(v + after);
      BlankSkipped(s[b..c], [COMMA] + next);
      NoSpace([COMMA] + next);
      assert ([COMMA] + next)[1..] == next;
      MembersRead(s[c + 1..], all[1..], rest);
      MembersStepRead(v + after, all[0], all[1..], after, rest);
      assert all == [all[0]] + all[1..];
    }
  }

  lemma MembersCut(s: bytes, all: seq<Member>) returns (a: nat, b: nat, c: nat)
    requires all != [] && Members(s, all)
    ensures MembersAt(s, all, a, b, c)
  {
    hide MembersAt;
    var i, j, k :| MembersAt(s, all, i, j, k);
    MembersRange(s, all, i, j, k);
    a, b, c := i, j, k;
  }

  lemma MembersRange(s: bytes, all: seq<Member>, i: int, j: int, k: int)
    requires all != [] && MembersAt(s, all, i, j, k)
    ensures 0 <= i <= j <= k <= |s|
  {
    hide Blank, Pair;
  }

  lemma ObjectEmptyRead(s: bytes, w: bytes, rest: bytes)
    requires Blank(w) && s == w + [CLOSE_BRACE] + rest
    ensures ParseObject(s) == Some(Parsed(Object([]), rest))
  {
    hide Blank, SkipSpace, ParseMembers;
    BlankSkipped(w, [CLOSE_BRACE] + rest);
    assert s == w + ([CLOSE_BRACE] + rest);
    NoSpace([CLOSE_BRACE] + rest);
    assert ([CLOSE_BRACE] + rest)[1..] == rest;
  }

  lemma ObjectFullRead(s: bytes, all: seq<Member>, rest: bytes)
    requires SkipSpace(s) != [] && SkipSpace(s)[0] != CLOSE_BRACE && ParseMembers(SkipSpace(s)) == MembersOr(all, rest)
    ensures ParseObject(s) == ValueOr(Object(all), rest)
  {
    hide SkipSpace, ParseMembers;
  }

  lemma {:induction false} ObjectRead(t: bytes, all: seq<Member>, rest: bytes)
    requires Value(t, Object(all))
    ensures t[0] == OPEN_BRACE && ParseValue(t + rest) == ValueOr(Object(all), rest)
    decreases |t|, 0
  {
    hide Blank, SkipSpace, ParseObject, ParseMembers, Members, MembersOr, Unambiguous, DistinctNames;
    var s, body := (t + rest)[1..], t[1..|t| - 1];
    assert s == body + [CLOSE_BRACE] + rest;
    if all == [] {
      ObjectEmptyRead(s, body, rest);
      EmptyFine();
    } else {
      MembersRead(body, all, rest);
      ObjectFullRead(s, all, rest);
    }
  }

  lemma FlatFine(j: Json)
    requires !j.Array? && !j.Object?
    ensures Unambiguous(j)
  {
  }

  /** A derived value is read, and no more than it, if no object in it repeats a name. */
  lemma {:induction false} ValueRead(t: bytes, j: Json, rest: bytes)
    requires Value(t, j) && Stops(rest)
    ensures ParseValue(t + rest) == ValueOr(j, rest)
    ensures t != [] && Opens(t[0])
    decreases |t|, 1
  {
    hide ParseString, ParseNumber, ParseValue, NumberOf, Whole, Unsigned, Spells, Broken, Items, Members, Blank;
    hide Unambiguous, DistinctNames;
    if !j.Array? && !j.Object? {
      FlatFine(j);
    }
    match j
    case Null => WordRead(rest); WordOpens();
    case Bool(b) => WordRead(rest); WordOpens();
    case Integer(n) => IntegerValueRead(t, n, rest);
    case Fraction(text) => FractionValueRead(t, rest);
    case Str(b) => StringValueRead(t, b, rest); StringOpens(t + rest);
    case Array(items) => ArrayRead(t, items, rest);
    case Object(members) => ObjectRead(t, members, rest);
  }

  /** No white space, and no mark that ends or separates. */
  predicate Opens(c: byte)
  {
    !IsSpace(c) && c != COMMA && c != COLON && c != CLOSE_BRACE && c != CLOSE_BRACKET
  }

  lemma WordOpens()
    ensures Opens(Text("true")[0]) && Opens(Text("false")[0]) && Opens(Text("null")[0])
  {
    assert Text("false")[0] == 0x66 && Text("true")[0] == 0x74 && Text("null")[0] == 0x6e;
  }

  lemma StringOpens(s: bytes)
    requires s != [] && s[0] == QUOTE
    ensures Opens(s[0])
    ensures ParseString(s[1..]).Some? ==>
              ParseValue(s) == Some(Parsed(Str(ParseString(s[1..]).value.value), ParseString(s[1..]).value.rest))
  {
    hide ParseString;
  }

  lemma IntegerValueRead(t: bytes, n: int, rest: bytes)
    requires Value(t, Integer(n)) && Stops(rest)
    ensures ParseValue(t + rest) == Some(Parsed(Integer(n), rest)) && t != [] && Opens(t[0])
  {
    hide ParseNumber, ParseValue, NumberOf, Whole, Unsigned, Stops;
    IntegerRead(t, n, rest);
    var d := Unsigned(t);
    WholeIsDigits(d);
    assert d[..|d|] == d;
    NumberStarts(t, |d|);
    StartsNumber(t + rest);
  }

  lemma FractionValueRead(t: bytes, rest: bytes)
    requires Broken(t) && Stops(rest)
    ensures ParseValue(t + rest) == Some(Parsed(Fraction(t), rest)) && t != [] && Opens(t[0])
  {
    hide ParseNumber, ParseValue, Whole, Unsigned, Stops, Broken;
    BrokenRead(t, rest);
    var i, j := BrokenCut(t);
    NumberStarts(t, i);
    StartsNumber(t + rest);
  }

  lemma PairCut(t: bytes, m: Member) returns (i: nat, k: nat, l: nat)
    requires Pair(t, m)
    ensures i <= k < l <= |t| && Value(t[..i], Str(m.name)) && Blank(t[i..k]) && t[k] == 0x3a && Blank(t[k + 1..l])
    ensures Value(t[l..], m.value)
  {
    hide Value, Blank;
    var x, y, z :| PairAt(t, m, x, y, z);
    i, k, l := x, y, z;
  }

  lemma MemberParts(s: bytes, m: Member, after: bytes, value: bytes, rest: bytes)
    requires s != [] && s[0] == QUOTE && ParseString(s[1..]) == Some(Parsed(m.name, after))
    requires SkipSpace(after) != [] && SkipSpace(after)[0] == COLON && SkipSpace(SkipSpace(after)[1..]) == value
    requires ParseValue(value) == ValueOr(m.value, rest)
    ensures ParseMember(s) == if Unambiguous(m.value) then Some(Parsed(m, rest)) else None
  {
    hide ParseString, ParseValue, SkipSpace, Unambiguous;
  }

  lemma {:induction false} MemberRead(t: bytes, m: Member, rest: bytes)
    requires Pair(t, m) && Stops(rest)
    ensures ParseMember(t + rest) == if Unambiguous(m.value) then Some(Parsed(m, rest)) else None
    ensures t != [] && Opens(t[0])
    decreases |t|, 0
  {
    hide Value, Blank, ParseString, ParseValue, ParseMember, SkipSpace, Stops, Unambiguous, ValueOr, Pair;
    var i, k, l := PairCut(t, m);
    var last := t[l..] + rest;
    var next := t[k + 1..l] + last;
    var after := t[i..k] + ([COLON] + next);
    StringValueRead(t[..i], m.name, after);
    assert t + rest == t[..i] + after;
    StringOpens(t + rest);
    BlankSkipped(t[i..k], [COLON] + next);
    NoSpace([COLON] + next);
    assert ([COLON] + next)[1..] == next;
    ValueRead(t[l..], m.value, rest);
    BlankSkipped(t[k + 1..l], last);
    NoSpace(last);
    MemberParts(t + rest, m, after, last, rest);
  }

  // The whole text.

  lemma TextTaken(t: bytes, j: Json)
    requires ParseText(t) == Some(j)
    ensures Derives(t, j)
  {
    hide Utf8.Valid, ParseValue, Value, Blank, SkipSpace;
    var s := SkipSpace(t);
    SpaceTaken(t);
    ValueTaken(s);
    var rest := ParseValue(s).value.rest;
    OnlyBlank(rest);
    var a := Taken(t, s);
    var b := a + Taken(s, rest);
    CutAgain(t, a, b);
    assert t[b..] == rest;
    assert Blank(t[..a]) && Value(t[a..b], j) && Blank(t[b..]);
  }

  lemma TextRead(t: bytes, j: Json)
    requires Derives(t, j)
    ensures ParseText(t) == if Unambiguous(j) then Some(j) else None
  {
    hide Utf8.Valid, ParseValue, Value, Blank, SkipSpace, Unambiguous;
    var a, b :| 0 <= a <= b <= |t| && Blank(t[..a]) && Value(t[a..b], j) && Blank(t[b..]);
    var v, rest := t[a..b], t[b..];
    BlankStops(rest);
    ValueRead(v, j, rest);
    assert t == t[..a] + (v + rest);
    BlankSkipped(t[..a], v + rest);
    NoSpace(v + rest);
    OnlyBlank(rest);
  }

  lemma BlankStops(w: bytes)
    requires Blank(w)
    ensures Stops(w)
  {
  }

  /** A text is read exactly if it is JSON without a repeated name, and then as what it stands for. */
  lemma ParsedIffDerived(t: bytes, j: Json)
    ensures ParseText(t) == Some(j) <==> Derives(t, j) && Unambiguous(j)
  {
    hide ParseText, Derives, Unambiguous;
    if ParseText(t) == Some(j) {
      TextTaken(t, j);
      ParsedUnambiguous(t);
    } else if Derives(t, j) {
      TextRead(t, j);
    }
  }

  /** No text stands for two values. */
  lemma DerivedOnce(t: bytes, j: Json, k: Json)
    requires Derives(t, j) && Derives(t, k) && Unambiguous(j) && Unambiguous(k)
    ensures j == k
  {
    hide Derives, Unambiguous;
    ParsedIffDerived(t, j);
    ParsedIffDerived(t, k);
  }

  /** JSON that repeats a name in an object, at whatever depth, stands for nothing. */
  lemma RepeatedNameRefused(t: bytes, j: Json)
    requires Derives(t, j) && !Unambiguous(j)
    ensures ParseText(t).None?
  {
    hide Derives, Unambiguous;
    TextRead(t, j);
  }
}
