/** Newline-delimited JSON: every printed record stays on its own line and reads back as its members. */
module JsonLines {
  import opened Bytes
  import opened JsonText
  import opened JsonParse
  import Utf8

  predicate NoControls(text: bytes)
  {
    forall c :: c in text ==> c >= 0x20
  }

  /** A text that stands for a value, in UTF-8 and without a raw control character. */
  ghost predicate Printed(text: bytes, value: Json)
  {
    Renders(text, value) && Utf8.Valid(text) && NoControls(text)
  }

  // UTF-8 validity of what is put together from valid parts.

  lemma {:induction false} EncodeAllAppend(left: seq<Utf8.scalar>, right: seq<Utf8.scalar>)
    ensures Utf8.EncodeAll(left + right) == Utf8.EncodeAll(left) + Utf8.EncodeAll(right)
  {
    hide Utf8.EncodeScalar;
    if left == [] {
      assert left + right == right;
    } else {
      assert (left + right)[1..] == left[1..] + right;
      EncodeAllAppend(left[1..], right);
    }
  }

  lemma ValidAppend(left: bytes, right: bytes)
    requires Utf8.Valid(left) && Utf8.Valid(right)
    ensures Utf8.Valid(left + right)
  {
    hide Utf8.Valid, Utf8.EncodeAll;
    var l := Utf8.ValidIsEncoded(left);
    var r := Utf8.ValidIsEncoded(right);
    EncodeAllAppend(l, r);
    Utf8.EncodedIsValid(l + r);
  }

  lemma {:induction false} AsciiValid(b: bytes)
    requires forall i :: 0 <= i < |b| ==> b[i] < 0x80
    ensures Utf8.Valid(b)
  {
    if b != [] {
      AsciiValid(b[1..]);
    }
  }

  lemma {:induction false} HighUnescaped(b: bytes)
    requires forall i :: 0 <= i < |b| ==> b[i] >= 0x80
    ensures Escape(b) == b
  {
    if b != [] {
      HighUnescaped(b[1..]);
      assert b == [b[0]] + b[1..];
    }
  }

  lemma {:induction false} EscapeAppend(left: bytes, right: bytes)
    ensures Escape(left + right) == Escape(left) + Escape(right)
  {
    hide EscapeByte;
    if left == [] {
      assert left + right == right;
    } else {
      assert (left + right)[1..] == left[1..] + right;
      EscapeAppend(left[1..], right);
    }
  }

  lemma OneScalar(v: Utf8.scalar)
    ensures Utf8.Valid(Utf8.EncodeScalar(v))
  {
    hide Utf8.EncodeScalar, Utf8.Valid;
    var text := [v];
    assert text[1..] == [];
    assert Utf8.EncodeAll(text[1..]) == [];
    assert Utf8.EncodeAll(text) == Utf8.EncodeScalar(v);
    Utf8.EncodedIsValid(text);
  }

  lemma EscapeScalar(v: Utf8.scalar)
    ensures Utf8.Valid(Escape(Utf8.EncodeScalar(v)))
  {
    hide Utf8.Valid;
    if v < 0x80 {
      var b := Utf8.EncodeScalar(v);
      assert b == [v] && b[1..] == [];
      assert Escape(b) == EscapeByte(v);
      AsciiValid(EscapeByte(v));
    } else {
      HighUnescaped(Utf8.EncodeScalar(v));
      OneScalar(v);
    }
  }

  lemma {:induction false} EscapeAllValid(text: seq<Utf8.scalar>)
    ensures Utf8.Valid(Escape(Utf8.EncodeAll(text)))
  {
    if text != [] {
      hide Utf8.EncodeScalar, Escape, Utf8.Valid;
      EscapeScalar(text[0]);
      EscapeAllValid(text[1..]);
      EscapeAppend(Utf8.EncodeScalar(text[0]), Utf8.EncodeAll(text[1..]));
      ValidAppend(Escape(Utf8.EncodeScalar(text[0])), Escape(Utf8.EncodeAll(text[1..])));
    }
  }

  /** Escaping keeps UTF-8 intact. */
  lemma EscapeValid(b: bytes)
    requires Utf8.Valid(b)
    ensures Utf8.Valid(Escape(b))
  {
    hide Utf8.Valid, Escape;
    var text := Utf8.ValidIsEncoded(b);
    EscapeAllValid(text);
  }

  lemma Symbol(c: byte)
    requires c < 0x80
    ensures Utf8.Valid([c])
  {
    AsciiValid([c]);
  }

  lemma StringPrinted(b: bytes)
    requires Utf8.Valid(b)
    ensures Printed(JsonString(b), Str(b))
  {
    hide Utf8.Valid, Escape, Renders;
    StringRenders(b);
    EscapeFacts(b);
    EscapeValid(b);
    Symbol(QUOTE);
    ValidAppend([QUOTE], Escape(b));
    ValidAppend([QUOTE] + Escape(b), [QUOTE]);
  }

  lemma NumberPrinted(n: nat)
    ensures Printed(Decimal(n), Integer(n))
  {
    hide Utf8.Valid, Decimal, Renders;
    NumberRenders(n);
    assert forall i :: 0 <= i < |Decimal(n)| ==> Decimal(n)[i] in Decimal(n);
    AsciiValid(Decimal(n));
  }

  lemma {:induction false} CommasPlain(texts: seq<bytes>)
    requires forall t :: t in texts ==> Utf8.Valid(t) && NoControls(t)
    ensures Utf8.Valid(Commas(texts)) && NoControls(Commas(texts))
  {
    hide Utf8.Valid;
    if texts == [] {
      AsciiValid([]);
    } else {
      assert texts[0] in texts;
      CommasPlain(texts[1..]);
      Symbol(COMMA);
      ValidAppend(texts[0], [COMMA]);
      ValidAppend(texts[0] + [COMMA], Commas(texts[1..]));
    }
  }

  lemma Bracketed(open: byte, body: bytes, close: byte)
    requires 0x20 <= open < 0x80 && 0x20 <= close < 0x80 && Utf8.Valid(body) && NoControls(body)
    ensures Utf8.Valid([open] + body + [close]) && NoControls([open] + body + [close])
  {
    hide Utf8.Valid;
    Symbol(open);
    Symbol(close);
    ValidAppend([open], body);
    ValidAppend([open] + body, [close]);
  }

  lemma ArrayPrinted(texts: seq<bytes>, items: seq<Json>)
    requires |texts| == |items| && forall i :: 0 <= i < |texts| ==> Printed(texts[i], items[i])
    ensures Printed(ArrayText(texts), Array(items))
  {
    hide Utf8.Valid, Renders, NoControls, Commas;
    ArrayRenders(texts, items);
    CommasPlain(texts);
    Bracketed(OPEN_BRACKET, Commas(texts), CLOSE_BRACKET);
  }

  lemma MemberPlain(name: bytes, value: bytes)
    requires Utf8.Valid(name) && Utf8.Valid(value) && NoControls(value)
    ensures Utf8.Valid(MemberText(name, value)) && NoControls(MemberText(name, value))
  {
    hide Utf8.Valid, Renders, JsonString;
    StringPrinted(name);
    Symbol(COLON);
    ValidAppend(JsonString(name), [COLON]);
    ValidAppend(JsonString(name) + [COLON], value);
  }

  /** Every name is UTF-8 and every printed value stands for its value. */
  ghost predicate AllPrinted(fields: JsonFields, values: map<bytes, Json>)
  {
    fields.Keys == values.Keys && forall n :: n in fields ==> Utf8.Valid(n) && Printed(fields[n], values[n])
  }

  lemma BracesPrinted(names: seq<bytes>, printed: seq<bytes>, values: seq<Json>)
    requires Increasing(names) && |names| == |printed| == |values|
    requires forall i :: 0 <= i < |names| ==> Utf8.Valid(names[i]) && Printed(printed[i], values[i])
    ensures Printed([OPEN_BRACE] + Commas(MemberTexts(names, printed)) + [CLOSE_BRACE],
                    Object(MembersOf(names, values)))
  {
    hide Utf8.Valid, Renders, NoControls, Commas, MemberText, Increasing;
    var texts := MemberTexts(names, printed);
    forall i | 0 <= i < |texts|
      ensures Utf8.Valid(texts[i]) && NoControls(texts[i])
    {
      MemberPlain(names[i], printed[i]);
    }
    CommasPlain(texts);
    Bracketed(OPEN_BRACE, Commas(texts), CLOSE_BRACE);
    BracesRender(names, printed, values);
  }

  /** A printed map of printed values is itself printed, and stands for the same map. */
  lemma ObjectPrinted(fields: JsonFields, values: map<bytes, Json>)
    requires AllPrinted(fields, values)
    ensures Printed(ObjectText(fields), ObjectOf(values))
  {
    hide Utf8.Valid, Printed, SortedNames, Commas, MemberTexts, MembersOf, Increasing;
    SortedNamesFacts(fields.Keys);
    var names := SortedNames(fields.Keys);
    BracesPrinted(names, Select(names, fields), Select(names, values));
  }

  lemma PrintedReads(text: bytes, value: Json)
    requires Printed(text, value)
    ensures ParseText(text) == Some(value)
  {
    hide Utf8.Valid, Renders, NoControls, ParseValue;
    RendersHere(text, value, []);
    assert text + [] == text;
  }

  // Lines.

  /** The lines of a byte stream, without their terminators; nothing when the last one is not terminated. */
  function SplitLines(s: bytes): (r: Option<seq<bytes>>)
  {
    if s == [] then Some([])
    else if s[0] == LF then
      var rest := SplitLines(s[1..]);
      if rest.None? then None else Some([[]] + rest.value)
    else
      var rest := SplitLines(s[1..]);
      if rest.None? || rest.value == [] then None
      else Some([[s[0]] + rest.value[0]] + rest.value[1..])
  }

  function Terminated(texts: seq<bytes>): (r: seq<bytes>)
    ensures |r| == |texts|
  {
    seq(|texts|, i requires 0 <= i < |texts| => texts[i] + [LF])
  }

  lemma {:induction false} SplitFirst(text: bytes, rest: bytes)
    requires LF !in text
    ensures SplitLines(text + [LF] + rest) ==
            if SplitLines(rest).None? then None else Some([text] + SplitLines(rest).value)
  {
    var s := text + [LF] + rest;
    if text == [] {
      assert s == [LF] + rest;
    } else {
      assert s[1..] == text[1..] + [LF] + rest;
      SplitFirst(text[1..], rest);
      assert [text[0]] + text[1..] == text;
    }
  }

  /** Splitting on LF undoes terminating with LF, as long as no line contains one. */
  lemma {:induction false} SplitTerminated(texts: seq<bytes>)
    requires forall i :: 0 <= i < |texts| ==> LF !in texts[i]
    ensures SplitLines(Concat(Terminated(texts))) == Some(texts)
  {
    if texts != [] {
      hide SplitLines;
      SplitTerminated(texts[1..]);
      assert Terminated(texts)[1..] == Terminated(texts[1..]);
      SplitFirst(texts[0], Concat(Terminated(texts[1..])));
      assert [texts[0]] + texts[1..] == texts;
    }
  }

  /** The values of a stream of lines. */
  function ParseLines(lines: seq<bytes>): (r: Option<seq<Json>>)
  {
    if lines == [] then Some([])
    else
      var first, rest := ParseText(lines[0]), ParseLines(lines[1..]);
      if first.None? || rest.None? then None else Some([first.value] + rest.value)
  }

  function ReadStream(s: bytes): (r: Option<seq<Json>>)
  {
    var lines := SplitLines(s);
    if lines.None? then None else ParseLines(lines.value)
  }

  lemma {:induction false} ParsePrinted(texts: seq<bytes>, values: seq<Json>)
    requires |texts| == |values| && forall i :: 0 <= i < |texts| ==> Printed(texts[i], values[i])
    ensures ParseLines(texts) == Some(values)
  {
    hide ParseText, Printed;
    if texts != [] {
      PrintedReads(texts[0], values[0]);
      ParsePrinted(texts[1..], values[1..]);
      assert values == [values[0]] + values[1..];
    }
  }

  /** Printed lines read back as exactly the values they stand for. */
  lemma StreamReadsBack(texts: seq<bytes>, values: seq<Json>)
    requires |texts| == |values| && forall i :: 0 <= i < |texts| ==> Printed(texts[i], values[i])
    ensures ReadStream(Concat(Terminated(texts))) == Some(values)
  {
    hide SplitLines, ParseLines, Renders, Utf8.Valid, Terminated;
    SplitTerminated(texts);
    ParsePrinted(texts, values);
  }
}
