/** JSON as sections 2 to 7 of RFC 8259 define it, read back from what the producer prints. */
module JsonParse {
  import opened Bytes
  import opened JsonText
  import Utf8

  datatype Member = Member(name: bytes, value: Json)

  /** A JSON value; strings as the octets of their UTF-8 encoding. */
  datatype Json =
    | Null
    | Bool(b: bool)
    | Integer(n: int)
    | Fraction(text: bytes)
    | Str(text: bytes)
    | Array(items: seq<Json>)
    | Object(members: seq<Member>)

  datatype Parsed<T> = Parsed(value: T, rest: bytes)

  const OPEN_BRACKET: byte := 0x5b
  const CLOSE_BRACKET: byte := 0x5d
  const MINUS: byte := 0x2d

  predicate IsSpace(c: byte) { c == 0x20 || c == 0x09 || c == 0x0a || c == 0x0d }

  function SkipSpace(s: bytes): (r: bytes)
    ensures |r| <= |s|
  {
    if s != [] && IsSpace(s[0]) then SkipSpace(s[1..]) else s
  }

  // Strings.

  function HexValue(c: byte): (v: Option<nat>)
    ensures v.Some? ==> v.value < 16
  {
    if 0x30 <= c <= 0x39 then Some(c - 0x30)
    else if 0x61 <= c <= 0x66 then Some(c - 0x61 + 10)
    else if 0x41 <= c <= 0x46 then Some(c - 0x41 + 10)
    else None
  }

  /** Four hexadecimal digits. */
  function CodeUnit(s: bytes): (v: Option<nat>)
    ensures v.Some? ==> |s| >= 4 && v.value < 0x10000
  {
    if |s| < 4 then None
    else
      var a, b, c, d := HexValue(s[0]), HexValue(s[1]), HexValue(s[2]), HexValue(s[3]);
      if a.None? || b.None? || c.None? || d.None? then None
      else Some(((a.value * 16 + b.value) * 16 + c.value) * 16 + d.value)
  }

  /** A `\u` escape, after its two first characters; surrogates count only in pairs. */
  function UnicodeEscape(s: bytes): (r: Option<Parsed<bytes>>)
    ensures r.Some? ==> |r.value.rest| < |s|
  {
    var unit := CodeUnit(s);
    if unit.None? then None
    else if 0xd800 <= unit.value <= 0xdbff then
      if |s| < 6 || s[4] != BACKSLASH || s[5] != 0x75 then None
      else
        var low := CodeUnit(s[6..]);
        if low.None? || !(0xdc00 <= low.value <= 0xdfff) then None
        else
          Some(Parsed(Utf8.EncodeScalar(0x10000 + (unit.value - 0xd800) * 0x400 + (low.value - 0xdc00)), s[10..]))
    else if 0xdc00 <= unit.value <= 0xdfff then None
    else Some(Parsed(Utf8.EncodeScalar(unit.value), s[4..]))
  }

  /** An escape, after its backslash. */
  function ParseEscape(s: bytes): (r: Option<Parsed<bytes>>)
    ensures r.Some? ==> |r.value.rest| < |s|
  {
    if s == [] then None
    else if s[0] == QUOTE || s[0] == BACKSLASH || s[0] == 0x2f then Some(Parsed([s[0]], s[1..]))
    else if s[0] == 0x62 then Some(Parsed([0x08], s[1..]))
    else if s[0] == 0x66 then Some(Parsed([0x0c], s[1..]))
    else if s[0] == 0x6e then Some(Parsed([0x0a], s[1..]))
    else if s[0] == 0x72 then Some(Parsed([0x0d], s[1..]))
    else if s[0] == 0x74 then Some(Parsed([0x09], s[1..]))
    else if s[0] == 0x75 then UnicodeEscape(s[1..])
    else None
  }

  /** The rest of a string, after its opening quotation mark. */
  function ParseString(s: bytes): (r: Option<Parsed<bytes>>)
    ensures r.Some? ==> |r.value.rest| < |s|
  {
    if s == [] || s[0] < 0x20 then None
    else if s[0] == QUOTE then Some(Parsed([], s[1..]))
    else
      var first := if s[0] == BACKSLASH then ParseEscape(s[1..]) else Some(Parsed([s[0]], s[1..]));
      if first.None? then None
      else
        var more := ParseString(first.value.rest);
        if more.None? then None else Some(Parsed(first.value.value + more.value.value, more.value.rest))
  }

  // Numbers.

  predicate IsDigit(c: byte) { 0x30 <= c <= 0x39 }

  /** The number of leading digits. */
  function Digits(s: bytes): (n: nat)
    ensures n <= |s|
  {
    if s != [] && IsDigit(s[0]) then 1 + Digits(s[1..]) else 0
  }

  function DigitsValue(s: bytes): nat
    requires forall c :: c in s ==> IsDigit(c)
  {
    if s == [] then 0
    else
      var last: int := s[|s| - 1];
      assert IsDigit(s[|s| - 1]);
      DigitsValue(s[..|s| - 1]) * 10 + (last - 0x30)
  }

  /** The number of octets of a fraction and an exponent; nothing when they are malformed. */
  function FractionSize(s: bytes): (n: Option<nat>)
    ensures n.Some? ==> n.value <= |s|
  {
    var fraction := if s != [] && s[0] == 0x2e then 1 + Digits(s[1..]) else 0;
    if fraction == 1 then None
    else
      var e := s[fraction..];
      if e == [] || (e[0] != 0x65 && e[0] != 0x45) then Some(fraction)
      else
        var sign := if |e| > 1 && (e[1] == 0x2b || e[1] == MINUS) then 2 else 1;
        var digits := Digits(e[sign..]);
        if digits == 0 then None else Some(fraction + sign + digits)
  }

  lemma {:induction false} DigitsAre(s: bytes)
    ensures forall c :: c in s[..Digits(s)] ==> IsDigit(c)
  {
    if s != [] && IsDigit(s[0]) {
      DigitsAre(s[1..]);
      assert s[..Digits(s)] == [s[0]] + s[1..][..Digits(s[1..])];
    }
  }

  function ParseNumber(s: bytes): (r: Option<Parsed<Json>>)
    ensures r.Some? ==> |r.value.rest| < |s|
  {
    var sign := if s != [] && s[0] == MINUS then 1 else 0;
    var t := s[sign..];
    var n := Digits(t);
    DigitsAre(t);
    if n == 0 || (t[0] == 0x30 && n > 1) then None
    else
      var more := FractionSize(t[n..]);
      if more.None? then None
      else if more.value > 0 then Some(Parsed(Fraction(s[..sign + n + more.value]), t[n + more.value..]))
      else
        var value: int := DigitsValue(t[..n]);
        Some(Parsed(Integer(if sign == 1 then -value else value), t[n..]))
  }

  // Values.

  predicate Starts(s: bytes, word: bytes)
  {
    |word| <= |s| && s[..|word|] == word
  }

  /** A value without white space in front of it. */
  function ParseValue(s: bytes): (r: Option<Parsed<Json>>)
    ensures r.Some? ==> |r.value.rest| < |s|
    decreases |s|, 2
  {
    if s == [] then None
    else if s[0] == QUOTE then
      var t := ParseString(s[1..]);
      if t.None? then None else Some(Parsed(Str(t.value.value), t.value.rest))
    else if s[0] == OPEN_BRACE then ParseObject(s[1..])
    else if s[0] == OPEN_BRACKET then ParseArray(s[1..])
    else if Starts(s, Text("true")) then Some(Parsed(Bool(true), s[4..]))
    else if Starts(s, Text("false")) then Some(Parsed(Bool(false), s[5..]))
    else if Starts(s, Text("null")) then Some(Parsed(Null, s[4..]))
    else ParseNumber(s)
  }

  /** The rest of an array, after its opening bracket. */
  function ParseArray(s: bytes): (r: Option<Parsed<Json>>)
    ensures r.Some? ==> |r.value.rest| < |s|
    decreases |s|, 4
  {
    var t := SkipSpace(s);
    if t != [] && t[0] == CLOSE_BRACKET then Some(Parsed(Array([]), t[1..]))
    else
      var items := ParseItems(t);
      if items.None? then None else Some(Parsed(Array(items.value.value), items.value.rest))
  }

  /** One or more array items, with the closing bracket. */
  function ParseItems(s: bytes): (r: Option<Parsed<seq<Json>>>)
    ensures r.Some? ==> |r.value.rest| < |s|
    decreases |s|, 3
  {
    var first := ParseValue(s);
    if first.None? then None
    else
      var t := SkipSpace(first.value.rest);
      if t == [] then None
      else if t[0] == CLOSE_BRACKET then Some(Parsed([first.value.value], t[1..]))
      else if t[0] == COMMA then
        var more := ParseItems(SkipSpace(t[1..]));
        if more.None? then None else Some(Parsed([first.value.value] + more.value.value, more.value.rest))
      else None
  }

  /** The rest of an object, after its opening brace. */
  function ParseObject(s: bytes): (r: Option<Parsed<Json>>)
    ensures r.Some? ==> |r.value.rest| < |s|
    decreases |s|, 4
  {
    var t := SkipSpace(s);
    if t != [] && t[0] == CLOSE_BRACE then Some(Parsed(Object([]), t[1..]))
    else
      var members := ParseMembers(t);
      if members.None? then None else Some(Parsed(Object(members.value.value), members.value.rest))
  }

  /** A name, its colon and its value. */
  function ParseMember(s: bytes): (r: Option<Parsed<Member>>)
    ensures r.Some? ==> |r.value.rest| < |s|
    decreases |s|, 0
  {
    if s == [] || s[0] != QUOTE then None
    else
      var name := ParseString(s[1..]);
      if name.None? then None
      else
        var t := SkipSpace(name.value.rest);
        if t == [] || t[0] != COLON then None
        else
          var value := ParseValue(SkipSpace(t[1..]));
          if value.None? then None
          else Some(Parsed(Member(name.value.value, value.value.value), value.value.rest))
  }

  predicate Named(members: seq<Member>, name: bytes)
  {
    exists i :: 0 <= i < |members| && members[i].name == name
  }

  /** One or more members, with the closing brace; a repeated name is refused. */
  function ParseMembers(s: bytes): (r: Option<Parsed<seq<Member>>>)
    ensures r.Some? ==> |r.value.rest| < |s|
    decreases |s|, 1
  {
    var first := ParseMember(s);
    if first.None? then None
    else
      var t := SkipSpace(first.value.rest);
      if t == [] then None
      else if t[0] == CLOSE_BRACE then Some(Parsed([first.value.value], t[1..]))
      else if t[0] == COMMA then
        var more := ParseMembers(SkipSpace(t[1..]));
        if more.None? || Named(more.value.value, first.value.value.name) then None
        else Some(Parsed([first.value.value] + more.value.value, more.value.rest))
      else None
  }

  /** A whole text: UTF-8, one value, white space around it. */
  function ParseText(s: bytes): (r: Option<Json>)
  {
    if !Utf8.Valid(s) then None
    else
      var v := ParseValue(SkipSpace(s));
      if v.None? || SkipSpace(v.value.rest) != [] then None else Some(v.value.value)
  }

  // Reading back what was printed.

  lemma EscapeParsed(c: byte, tail: bytes)
    ensures var s := EscapeByte(c) + tail;
            && s[0] >= 0x20 && s[0] != QUOTE
            && (s[0] == BACKSLASH ==> ParseEscape(s[1..]) == Some(Parsed([c], tail)))
            && (s[0] != BACKSLASH ==> s[0] == c && s[1..] == tail)
  {
    var e := EscapeByte(c);
    var s := e + tail;
    assert s[1..] == e[1..] + tail;
    if |e| == 2 {
      assert e[1..] == [e[1]];
      assert s[1..][1..] == tail;
    } else if |e| == 6 {
      ControlParsed(c, tail);
      assert e[1..] + tail == [0x75] + ([0x30, 0x30, HexDigit(c / 16), HexDigit(c % 16)] + tail);
    }
  }

  lemma ControlParsed(c: byte, tail: bytes)
    requires c < 0x20
    ensures UnicodeEscape([0x30, 0x30, HexDigit(c / 16), HexDigit(c % 16)] + tail) == Some(Parsed([c], tail))
  {
    var s := [0x30, 0x30, HexDigit(c / 16), HexDigit(c % 16)] + tail;
    assert s[4..] == tail;
    assert HexValue(HexDigit(c / 16)) == Some(c / 16) && HexValue(HexDigit(c % 16)) == Some(c % 16);
    assert CodeUnit(s) == Some(c / 16 * 16 + c % 16);
  }

  lemma StringStep(c: byte, tail: bytes)
    ensures var more := ParseString(tail);
            ParseString(EscapeByte(c) + tail) ==
            if more.None? then None else Some(Parsed([c] + more.value.value, more.value.rest))
  {
    EscapeParsed(c, tail);
    hide EscapeByte, ParseEscape;
  }

  lemma {:induction false} StringParsed(b: bytes, rest: bytes)
    ensures ParseString(Escape(b) + [QUOTE] + rest) == Some(Parsed(b, rest))
  {
    var s := Escape(b) + [QUOTE] + rest;
    if b == [] {
      assert s == [QUOTE] + rest;
    } else {
      hide EscapeByte, ParseEscape, ParseString;
      var tail := Escape(b[1..]) + [QUOTE] + rest;
      assert s == EscapeByte(b[0]) + tail;
      StringStep(b[0], tail);
      StringParsed(b[1..], rest);
      assert b == [b[0]] + b[1..];
    }
  }

  lemma {:induction false} DecimalParsed(n: nat)
    ensures DigitsValue(Decimal(n)) == n
    ensures Decimal(n)[0] == 0x30 ==> n == 0 && |Decimal(n)| == 1
  {
    var d := Decimal(n);
    if n < 10 {
      assert d[..0] == [];
    } else {
      DecimalParsed(n / 10);
      assert d[..|d| - 1] == Decimal(n / 10);
    }
  }

  lemma {:induction false} DigitsOf(d: bytes, rest: bytes)
    requires forall c :: c in d ==> IsDigit(c)
    requires rest == [] || !IsDigit(rest[0])
    ensures Digits(d + rest) == |d|
  {
    if d != [] {
      assert (d + rest)[1..] == d[1..] + rest;
      DigitsOf(d[1..], rest);
    } else {
      assert d + rest == rest;
    }
  }

  /** What can follow a value inside an object or an array, or at the end of the text. */
  predicate Delimited(rest: bytes)
  {
    rest == [] || rest[0] == COMMA || rest[0] == CLOSE_BRACE || rest[0] == CLOSE_BRACKET
  }

  lemma NumberParsed(n: nat, rest: bytes)
    requires Delimited(rest)
    ensures ParseNumber(Decimal(n) + rest) == Some(Parsed(Integer(n), rest))
  {
    hide Decimal;
    var d := Decimal(n);
    var s := d + rest;
    DecimalParsed(n);
    assert forall c :: c in d ==> IsDigit(c);
    DigitsOf(d, rest);
    assert s[0..] == s && s[..|d|] == d && s[|d|..] == rest;
    assert IsDigit(d[0]);
    assert FractionSize(rest) == Some(0) by { assert rest[0..] == rest; }
  }

  predicate ParsesTo(text: bytes, value: Json, rest: bytes)
  {
    ParseValue(text + rest) == Some(Parsed(value, rest))
  }

  /** The text stands for the value wherever a value can stand. */
  ghost predicate Renders(text: bytes, value: Json)
  {
    text != [] && !IsSpace(text[0]) && forall rest | Delimited(rest) :: ParsesTo(text, value, rest)
  }

  lemma StringRenders(b: bytes)
    ensures Renders(JsonString(b), Str(b))
  {
    hide ParseString, Escape;
    forall rest | Delimited(rest)
      ensures ParsesTo(JsonString(b), Str(b), rest)
    {
      StringParsed(b, rest);
      assert (JsonString(b) + rest)[1..] == Escape(b) + [QUOTE] + rest;
    }
  }

  lemma DigitStartsNumber(s: bytes)
    requires s != [] && IsDigit(s[0])
    ensures ParseValue(s) == ParseNumber(s)
  {
    hide ParseNumber;
    assert Text("true")[0] == 0x74 && Text("false")[0] == 0x66 && Text("null")[0] == 0x6e;
  }

  lemma NumberRenders(n: nat)
    ensures Renders(Decimal(n), Integer(n))
  {
    hide Decimal, ParseNumber, ParseValue;
    var d := Decimal(n);
    assert IsDigit(d[0]) by { assert d[0] in d; }
    forall rest | Delimited(rest)
      ensures ParsesTo(d, Integer(n), rest)
    {
      NumberParsed(n, rest);
      assert (d + rest)[0] == d[0];
      DigitStartsNumber(d + rest);
    }
  }

  lemma RendersHere(text: bytes, value: Json, rest: bytes)
    requires Renders(text, value) && Delimited(rest)
    ensures ParseValue(text + rest) == Some(Parsed(value, rest)) && SkipSpace(text + rest) == text + rest
  {
    hide ParseValue;
    assert ParsesTo(text, value, rest);
  }

  lemma MemberParsed(name: bytes, text: bytes, value: Json, rest: bytes)
    requires Renders(text, value) && Delimited(rest)
    ensures ParseMember(MemberText(name, text) + rest) == Some(Parsed(Member(name, value), rest))
  {
    hide ParseString, Escape, ParseValue, Renders;
    var s := MemberText(name, text) + rest;
    var afterName := [COLON] + text + rest;
    StringParsed(name, afterName);
    assert s[1..] == Escape(name) + [QUOTE] + afterName;
    assert afterName[1..] == text + rest;
    RendersHere(text, value, rest);
  }

  function MembersOf(names: seq<bytes>, values: seq<Json>): (r: seq<Member>)
    requires |names| == |values|
    ensures |r| == |names|
  {
    seq(|names|, i requires 0 <= i < |names| => Member(names[i], values[i]))
  }

  /** Every printed value stands for its value. */
  ghost predicate AllRender(printed: seq<bytes>, values: seq<Json>)
  {
    |printed| == |values| && forall i :: 0 <= i < |printed| ==> Renders(printed[i], values[i])
  }

  lemma MembersStep(first: bytes, member: Member, more: seq<Member>, rest: bytes, tail: bytes)
    requires ParseMember(first + tail) == Some(Parsed(member, tail))
    requires tail == [COMMA] + rest && rest != [] && !IsSpace(rest[0])
    requires ParseMembers(rest).Some? && !Named(ParseMembers(rest).value.value, member.name)
    ensures ParseMembers(first + tail) ==
            Some(Parsed([member] + ParseMembers(rest).value.value, ParseMembers(rest).value.rest))
  {
    hide ParseMember, Named;
    assert tail[1..] == rest;
  }

  lemma LastMember(first: bytes, member: Member, rest: bytes)
    requires ParseMember(first + ([CLOSE_BRACE] + rest)) == Some(Parsed(member, [CLOSE_BRACE] + rest))
    ensures ParseMembers(first + ([CLOSE_BRACE] + rest)) == Some(Parsed([member], rest))
  {
    hide ParseMember, Named;
    assert ([CLOSE_BRACE] + rest)[1..] == rest;
  }

  lemma NotNamed(names: seq<bytes>, values: seq<Json>)
    requires names != [] && Increasing(names) && |values| == |names| - 1
    ensures !Named(MembersOf(names[1..], values), names[0])
  {
    hide Less;
    forall i | 0 <= i < |names| - 1
      ensures names[1..][i] != names[0]
    {
      assert Less(names[0], names[i + 1]);
      LessIrreflexive(names[0]);
    }
  }

  lemma MemberTextFirst(name: bytes, value: bytes)
    ensures MemberText(name, value) != [] && MemberText(name, value)[0] == QUOTE
  {
  }

  lemma {:induction false} MembersParsed(names: seq<bytes>, printed: seq<bytes>, values: seq<Json>, rest: bytes)
    requires names != [] && Increasing(names) && |names| == |printed| && AllRender(printed, values)
    ensures ParseMembers(Commas(MemberTexts(names, printed)) + [CLOSE_BRACE] + rest) ==
            Some(Parsed(MembersOf(names, values), rest))
  {
    hide ParseMember, ParseMembers, Renders, Less, MemberText;
    var texts := MemberTexts(names, printed);
    var name, text, value := names[0], printed[0], values[0];
    if |names| == 1 {
      var tail := [CLOSE_BRACE] + rest;
      MemberParsed(name, text, value, tail);
      assert Commas(texts) + [CLOSE_BRACE] + rest == texts[0] + tail;
      LastMember(texts[0], Member(name, value), rest);
      assert MembersOf(names, values) == [Member(name, value)];
    } else {
      var more := names[1..];
      assert MemberTexts(more, printed[1..]) == texts[1..];
      assert Increasing(more);
      MembersParsed(more, printed[1..], values[1..], rest);
      var after := Commas(texts[1..]) + [CLOSE_BRACE] + rest;
      var tail := [COMMA] + after;
      MemberTextFirst(more[0], printed[1]);
      MemberParsed(name, text, value, tail);
      NotNamed(names, values[1..]);
      MembersStep(texts[0], Member(name, value), MembersOf(more, values[1..]), after, tail);
      assert Commas(texts) + [CLOSE_BRACE] + rest == texts[0] + tail;
      assert MembersOf(names, values) == [Member(name, value)] + MembersOf(more, values[1..]);
    }
  }

  lemma ObjectBody(body: bytes, members: seq<Member>, rest: bytes)
    requires body != [] && !IsSpace(body[0]) && body[0] != CLOSE_BRACE
    requires ParseMembers(body) == Some(Parsed(members, rest))
    ensures ParseValue([OPEN_BRACE] + body) == Some(Parsed(Object(members), rest))
  {
    hide ParseMembers;
    assert ([OPEN_BRACE] + body)[1..] == body;
  }

  lemma EmptyObject(rest: bytes)
    ensures ParseValue([OPEN_BRACE, CLOSE_BRACE] + rest) == Some(Parsed(Object([]), rest))
  {
    var s := [OPEN_BRACE, CLOSE_BRACE] + rest;
    assert s[1..][1..] == rest;
  }

  /** Members in name order parse to themselves. */
  lemma BracesParsed(names: seq<bytes>, printed: seq<bytes>, values: seq<Json>, rest: bytes)
    requires Increasing(names) && |names| == |printed| && AllRender(printed, values)
    ensures ParseValue([OPEN_BRACE] + Commas(MemberTexts(names, printed)) + [CLOSE_BRACE] + rest) ==
            Some(Parsed(Object(MembersOf(names, values)), rest))
  {
    hide ParseValue, ParseMembers, Renders, Increasing, MemberText;
    var texts := MemberTexts(names, printed);
    if names == [] {
      EmptyObject(rest);
      assert [OPEN_BRACE] + Commas(texts) + [CLOSE_BRACE] + rest == [OPEN_BRACE, CLOSE_BRACE] + rest;
    } else {
      MembersParsed(names, printed, values, rest);
      var body := Commas(texts) + [CLOSE_BRACE] + rest;
      MemberTextFirst(names[0], printed[0]);
      assert [OPEN_BRACE] + Commas(texts) + [CLOSE_BRACE] + rest == [OPEN_BRACE] + body;
      ObjectBody(body, MembersOf(names, values), rest);
    }
  }

  lemma BracesRender(names: seq<bytes>, printed: seq<bytes>, values: seq<Json>)
    requires Increasing(names) && |names| == |printed| && AllRender(printed, values)
    ensures Renders([OPEN_BRACE] + Commas(MemberTexts(names, printed)) + [CLOSE_BRACE],
                    Object(MembersOf(names, values)))
  {
    hide ParseValue, Commas, MemberTexts, MembersOf;
    var text, value := [OPEN_BRACE] + Commas(MemberTexts(names, printed)) + [CLOSE_BRACE],
      Object(MembersOf(names, values));
    forall rest | Delimited(rest)
      ensures ParsesTo(text, value, rest)
    {
      BracesParsed(names, printed, values, rest);
    }
  }

  /** What the object printed from a map reads back as: all members, once each, in name order. */
  function ObjectOf(values: map<bytes, Json>): Json
  {
    SortedNamesFacts(values.Keys);
    var names := SortedNames(values.Keys);
    Object(MembersOf(names, Select(names, values)))
  }

  lemma ObjectRenders(fields: JsonFields, values: map<bytes, Json>)
    requires fields.Keys == values.Keys && forall n :: n in fields ==> Renders(fields[n], values[n])
    ensures Renders(ObjectText(fields), ObjectOf(values))
  {
    hide Renders, Increasing, SortedNames, Commas, MemberTexts, MembersOf;
    SortedNamesFacts(fields.Keys);
    var names := SortedNames(fields.Keys);
    BracesRender(names, Select(names, fields), Select(names, values));
  }

  // Arrays.

  lemma LastItem(first: bytes, item: Json, rest: bytes)
    requires ParseValue(first + ([CLOSE_BRACKET] + rest)) == Some(Parsed(item, [CLOSE_BRACKET] + rest))
    ensures ParseItems(first + ([CLOSE_BRACKET] + rest)) == Some(Parsed([item], rest))
  {
    hide ParseValue;
    assert ([CLOSE_BRACKET] + rest)[1..] == rest;
  }

  lemma ItemsStep(first: bytes, item: Json, rest: bytes, tail: bytes)
    requires ParseValue(first + tail) == Some(Parsed(item, tail))
    requires tail == [COMMA] + rest && rest != [] && !IsSpace(rest[0]) && ParseItems(rest).Some?
    ensures ParseItems(first + tail) ==
            Some(Parsed([item] + ParseItems(rest).value.value, ParseItems(rest).value.rest))
  {
    hide ParseValue;
    assert tail[1..] == rest;
  }

  lemma RendersFirst(text: bytes, value: Json, tail: bytes)
    requires Renders(text, value)
    ensures text + tail != [] && !IsSpace((text + tail)[0])
  {
    hide ParsesTo;
  }

  lemma {:induction false} ItemsParsed(texts: seq<bytes>, items: seq<Json>, rest: bytes)
    requires texts != [] && |texts| == |items| && forall i :: 0 <= i < |texts| ==> Renders(texts[i], items[i])
    ensures ParseItems(Commas(texts) + [CLOSE_BRACKET] + rest) == Some(Parsed(items, rest))
  {
    hide ParseValue, ParseItems, Renders;
    if |texts| == 1 {
      var tail := [CLOSE_BRACKET] + rest;
      RendersHere(texts[0], items[0], tail);
      LastItem(texts[0], items[0], rest);
      assert Commas(texts) + [CLOSE_BRACKET] + rest == texts[0] + tail;
      assert items == [items[0]];
    } else {
      ItemsParsed(texts[1..], items[1..], rest);
      var after := Commas(texts[1..]) + [CLOSE_BRACKET] + rest;
      var tail := [COMMA] + after;
      RendersHere(texts[0], items[0], tail);
      CommasFirst(texts[1..]);
      assert after == texts[1] + (Commas(texts[1..])[|texts[1]|..] + [CLOSE_BRACKET] + rest);
      RendersFirst(texts[1], items[1], Commas(texts[1..])[|texts[1]|..] + [CLOSE_BRACKET] + rest);
      ItemsStep(texts[0], items[0], after, tail);
      assert Commas(texts) + [CLOSE_BRACKET] + rest == texts[0] + tail;
      assert items == [items[0]] + items[1..];
    }
  }

  lemma CommasFirst(texts: seq<bytes>)
    requires texts != []
    ensures |texts[0]| <= |Commas(texts)| && Commas(texts)[..|texts[0]|] == texts[0]
  {
  }

  function ArrayText(texts: seq<bytes>): bytes
  {
    [OPEN_BRACKET] + Commas(texts) + [CLOSE_BRACKET]
  }

  lemma ArrayBody(body: bytes, items: seq<Json>, rest: bytes)
    requires body != [] && !IsSpace(body[0]) && body[0] != CLOSE_BRACKET
    requires ParseItems(body) == Some(Parsed(items, rest))
    ensures ParseValue([OPEN_BRACKET] + body) == Some(Parsed(Array(items), rest))
  {
    hide ParseItems;
    assert ([OPEN_BRACKET] + body)[1..] == body;
  }

  lemma EmptyArray(rest: bytes)
    ensures ParseValue([OPEN_BRACKET, CLOSE_BRACKET] + rest) == Some(Parsed(Array([]), rest))
  {
    var s := [OPEN_BRACKET, CLOSE_BRACKET] + rest;
    assert s[1..][1..] == rest;
  }

  /** A text that stands for a value is not a closing bracket. */
  lemma NotClosing(text: bytes, value: Json)
    requires Renders(text, value)
    ensures text[0] != CLOSE_BRACKET
  {
    RendersHere(text, value, []);
    assert text + [] == text;
    if text[0] == CLOSE_BRACKET {
      ClosingIsNoValue(text);
    }
  }

  lemma ClosingIsNoValue(text: bytes)
    requires text != [] && text[0] == CLOSE_BRACKET
    ensures ParseValue(text).None?
  {
    assert Text("true")[0] == 0x74 && Text("false")[0] == 0x66 && Text("null")[0] == 0x6e;
    assert Digits(text[0..]) == 0;
  }

  lemma ArrayRenders(texts: seq<bytes>, items: seq<Json>)
    requires |texts| == |items| && forall i :: 0 <= i < |texts| ==> Renders(texts[i], items[i])
    ensures Renders(ArrayText(texts), Array(items))
  {
    hide ParseValue, ParseItems, Renders;
    forall rest | Delimited(rest)
      ensures ParsesTo(ArrayText(texts), Array(items), rest)
    {
      if texts == [] {
        EmptyArray(rest);
        assert ArrayText(texts) == [OPEN_BRACKET, CLOSE_BRACKET];
      } else {
        ItemsParsed(texts, items, rest);
        CommasFirst(texts);
        RendersFirst(texts[0], items[0], []);
        NotClosing(texts[0], items[0]);
        var body := Commas(texts) + [CLOSE_BRACKET] + rest;
        assert body[0] == texts[0][0];
        assert ArrayText(texts) + rest == [OPEN_BRACKET] + body;
        ArrayBody(body, items, rest);
      }
    }
    RendersIs(ArrayText(texts), Array(items));
  }

  lemma RendersIs(text: bytes, value: Json)
    requires text != [] && !IsSpace(text[0]) && forall rest | Delimited(rest) :: ParsesTo(text, value, rest)
    ensures Renders(text, value)
  {
  }
}
