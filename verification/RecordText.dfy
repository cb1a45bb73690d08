/** The members the producer prints for each record, and the JSON values they stand for. */
module RecordText {
  import opened Bytes
  import opened Records
  import opened JsonText
  import opened JsonParse
  import opened JsonLines
  import opened ByteValue
  import Annotation
  import Readback
  import Utf8

  // Single values.

  /** `std::to_string` of a signed number. */
  function Signed(n: int): bytes
  {
    if n < 0 then [MINUS] + Decimal(-n) else Decimal(n)
  }

  lemma NegativeParsed(n: int, rest: bytes)
    requires n > 0 && Delimited(rest)
    ensures ParseNumber([MINUS] + Decimal(n) + rest) == Some(Parsed(Integer(-n), rest))
  {
    hide Decimal, Digits, DigitsValue, FractionSize;
    var d := Decimal(n);
    var s := [MINUS] + d + rest;
    assert forall c :: c in d ==> IsDigit(c);
    DecimalParsed(n);
    DigitsOf(d, rest) by { NoDigit(rest); }
    NoFraction(rest);
    assert s[1..] == d + rest;
    assert s[1..][..|d|] == d && s[1..][|d|..] == rest;
    assert s[1] == d[0];
  }

  lemma NoDigit(rest: bytes)
    requires Delimited(rest)
    ensures rest == [] || !IsDigit(rest[0])
  {
  }

  lemma NoFraction(rest: bytes)
    requires Delimited(rest)
    ensures FractionSize(rest) == Some(0)
  {
    assert rest[0..] == rest;
  }

  lemma MinusStartsNumber(s: bytes)
    requires s != [] && s[0] == MINUS
    ensures ParseValue(s) == ParseNumber(s)
  {
    hide ParseNumber;
    assert Text("true")[0] == 0x74 && Text("false")[0] == 0x66 && Text("null")[0] == 0x6e;
  }

  lemma NegativeRenders(n: int)
    requires n > 0
    ensures Renders([MINUS] + Decimal(n), Integer(-n))
  {
    hide Decimal, ParseNumber, ParseValue;
    var text := [MINUS] + Decimal(n);
    forall rest | Delimited(rest)
      ensures ParsesTo(text, Integer(-n), rest)
    {
      NegativeParsed(n, rest);
      MinusStartsNumber(text + rest);
    }
  }

  lemma SignedPrinted(n: int)
    ensures Printed(Signed(n), Integer(n))
  {
    hide Renders, Utf8.Valid, Decimal;
    if n < 0 {
      NegativeRenders(-n);
      NumberPrinted(-n);
      Symbol(MINUS);
      ValidAppend([MINUS], Decimal(-n));
    } else {
      NumberPrinted(n);
    }
  }

  lemma NullRenders()
    ensures Renders(Text("null"), Null)
  {
    var text := Text("null");
    assert Text("true")[0] == 0x74 && Text("false")[0] == 0x66 && text[0] == 0x6e;
    forall rest | Delimited(rest)
      ensures ParsesTo(text, Null, rest)
    {
      assert (text + rest)[..4] == text && (text + rest)[4..] == rest;
      NullParsed(text + rest);
    }
  }

  lemma NullParsed(s: bytes)
    requires Starts(s, Text("null"))
    ensures ParseValue(s) == Some(Parsed(Null, s[4..]))
  {
    hide ParseString, ParseObject, ParseArray, ParseNumber;
    assert s[0] == s[..4][0];
    assert Text("true")[0] == 0x74 && Text("false")[0] == 0x66;
  }

  lemma NullPrinted()
    ensures Printed(Text("null"), Null)
  {
    hide Renders, Utf8.Valid;
    NullRenders();
    AsciiValid(Text("null"));
  }

  /** A byte value, or null. */
  function OptionalText(b: Option<bytes>): bytes
  {
    if b.None? then Text("null") else EnvelopeText(b.value)
  }

  function ByteObject(b: bytes): Json
  {
    Object(Envelope(b))
  }

  function OptionalValue(b: Option<bytes>): Json
  {
    if b.None? then Null else ByteObject(b.value)
  }

  lemma OptionalPrinted(b: Option<bytes>)
    ensures Printed(OptionalText(b), OptionalValue(b))
  {
    hide Printed, EnvelopeText, Envelope;
    if b.None? {
      NullPrinted();
    } else {
      EnvelopePrinted(b.value);
    }
  }

  lemma LiteralPrinted(s: string)
    ensures Printed(JsonString(Text(s)), Str(Text(s))) && Utf8.Valid(Text(s))
  {
    hide Printed, Utf8.Valid, JsonString;
    TextAscii(s);
    AsciiString(Text(s));
  }

  // Annotation segments.

  function KindName(k: Annotation.Kind): string
  {
    match k
    case Text => "text"
    case Markup => "markup"
    case Entity => "entity"
  }

  function Interpretation(k: Annotation.Kind): string
  {
    if k == Annotation.Kind.Text then "not_applicable" else "uninterpreted"
  }

  function SegmentNames(): (r: seq<bytes>)
    ensures |r| == 3
  {
    [Text("interpretation"), Text("kind"), Text("raw")]
  }

  function SegmentText(s: Annotation.Segment): bytes
  {
    [OPEN_BRACE]
    + Commas(MemberTexts(SegmentNames(), [JsonString(Text(Interpretation(s.kind))), JsonString(Text(KindName(s.kind))),
                                          EnvelopeText(s.raw)]))
    + [CLOSE_BRACE]
  }

  function SegmentValue(s: Annotation.Segment): Json
  {
    Object(MembersOf(SegmentNames(), [Str(Text(Interpretation(s.kind))), Str(Text(KindName(s.kind))),
                                      ByteObject(s.raw)]))
  }

  lemma SegmentNamesIncrease()
    ensures Increasing(SegmentNames())
    ensures forall i :: 0 <= i < 3 ==> Utf8.Valid(SegmentNames()[i])
  {
    hide Less, Utf8.Valid;
    LessAt(Text("interpretation"), Text("kind"), 0);
    LessAt(Text("interpretation"), Text("raw"), 0);
    LessAt(Text("kind"), Text("raw"), 0);
    AsciiValid(Text("interpretation"));
    AsciiValid(Text("kind"));
    AsciiValid(Text("raw"));
  }

  lemma KindPrinted(k: Annotation.Kind)
    ensures Printed(JsonString(Text(KindName(k))), Str(Text(KindName(k))))
    ensures Printed(JsonString(Text(Interpretation(k))), Str(Text(Interpretation(k))))
  {
    hide Printed, Utf8.Valid, JsonString, Text;
    LiteralPrinted(KindName(k));
    LiteralPrinted(Interpretation(k));
  }

  lemma SegmentPrinted(s: Annotation.Segment)
    ensures Printed(SegmentText(s), SegmentValue(s))
  {
    hide Printed, Utf8.Valid, JsonString, EnvelopeText, Envelope, Commas, MemberTexts, MembersOf, Increasing, Text,
      KindName, Interpretation;
    SegmentNamesIncrease();
    KindPrinted(s.kind);
    EnvelopePrinted(s.raw);
    BracesPrinted(SegmentNames(),
                  [JsonString(Text(Interpretation(s.kind))), JsonString(Text(KindName(s.kind))), EnvelopeText(s.raw)],
                  [Str(Text(Interpretation(s.kind))), Str(Text(KindName(s.kind))), ByteObject(s.raw)]);
  }

  function SegmentTexts(segments: seq<Annotation.Segment>): (r: seq<bytes>)
    ensures |r| == |segments|
  {
    seq(|segments|, i requires 0 <= i < |segments| => SegmentText(segments[i]))
  }

  function SegmentValues(segments: seq<Annotation.Segment>): (r: seq<Json>)
    ensures |r| == |segments|
  {
    seq(|segments|, i requires 0 <= i < |segments| => SegmentValue(segments[i]))
  }

  lemma SegmentsPrinted(segments: seq<Annotation.Segment>)
    ensures Printed(ArrayText(SegmentTexts(segments)), Array(SegmentValues(segments)))
  {
    hide Printed, SegmentText, SegmentValue, ArrayText;
    forall i | 0 <= i < |segments|
      ensures Printed(SegmentTexts(segments)[i], SegmentValues(segments)[i])
    {
      SegmentPrinted(segments[i]);
    }
    ArrayPrinted(SegmentTexts(segments), SegmentValues(segments));
  }

  /** `annotation_segments_json`: the printing loop over the segments. */
  method AnnotationSegmentsJson(raw: bytes) returns (output: bytes)
    ensures output == ArrayText(SegmentTexts(Annotation.Segments(raw)))
  {
    hide Annotation.Segments, SegmentText, Commas;
    var segments := Annotation.SegmentAnnotations(raw);
    ghost var texts := SegmentTexts(segments);
    output := [OPEN_BRACKET];
    NoCommas();
    var first := true;
    for i := 0 to |segments|
      invariant first == (i == 0)
      invariant output == [OPEN_BRACKET] + Commas(texts[..i])
    {
      CommasTake(texts, i);
      if !first {
        output := output + [COMMA];
      }
      first := false;
      var text := SegmentJson(segments[i]);
      output := output + text;
    }
    assert texts[..|segments|] == texts;
    output := output + [CLOSE_BRACKET];
  }

  method SegmentJson(s: Annotation.Segment) returns (output: bytes)
    ensures output == SegmentText(s)
  {
    hide MemberText, Commas, Text, EnvelopeText, JsonString;
    ghost var texts := MemberTexts(SegmentNames(), [JsonString(Text(Interpretation(s.kind))),
                                                    JsonString(Text(KindName(s.kind))), EnvelopeText(s.raw)]);
    var interpretation := if s.kind == Annotation.Kind.Text then "not_applicable" else "uninterpreted";
    output := [OPEN_BRACE] + MemberText(Text("interpretation"), JsonString(Text(interpretation)));
    OneText(texts);
    output := output + [COMMA] + MemberText(Text("kind"), JsonString(Text(KindName(s.kind))));
    OneMore(texts, 1);
    output := output + [COMMA] + MemberText(Text("raw"), EnvelopeText(s.raw));
    OneMore(texts, 2);
    assert texts[..3] == texts;
    output := output + [CLOSE_BRACE];
  }

  // Members.

  /** A member as it is printed, and what it stands for. */
  datatype Part = Part(name: string, text: bytes, value: Json)

  function PartFields(parts: seq<Part>): JsonFields
  {
    if parts == [] then map[]
    else PartFields(parts[..|parts| - 1])[Text(parts[|parts| - 1].name) := parts[|parts| - 1].text]
  }

  function PartValues(parts: seq<Part>): map<bytes, Json>
  {
    if parts == [] then map[]
    else PartValues(parts[..|parts| - 1])[Text(parts[|parts| - 1].name) := parts[|parts| - 1].value]
  }

  predicate AsciiText(s: string)
  {
    forall i :: 0 <= i < |s| ==> s[i] < 128 as char
  }

  /** A part with a plain name that is printed as what it stands for. */
  ghost predicate Good(p: Part)
  {
    AsciiText(p.name) && Printed(p.text, p.value)
  }

  ghost predicate WellPrinted(parts: seq<Part>)
  {
    forall i :: 0 <= i < |parts| ==> Good(parts[i])
  }

  lemma {:induction false} PartsPrinted(parts: seq<Part>)
    requires WellPrinted(parts)
    ensures AllPrinted(PartFields(parts), PartValues(parts))
  {
    hide Printed, Utf8.Valid, Text, AllPrinted;
    if parts == [] {
      NothingPrinted();
    } else {
      var n := |parts| - 1;
      PartsPrinted(parts[..n]);
      NamePrinted(parts[n].name);
      Readback.Extended(PartFields(parts[..n]), PartValues(parts[..n]), Text(parts[n].name), parts[n].text,
                        parts[n].value);
    }
  }

  lemma NothingPrinted()
    ensures AllPrinted(map[], map[])
  {
  }

  lemma NamePrinted(s: string)
    ensures Utf8.Valid(Text(s))
  {
    hide Utf8.Valid, Text;
    TextAscii(s);
    AsciiValid(Text(s));
  }

  lemma TextInjective(s: string, t: string)
    requires AsciiText(s) && AsciiText(t) && Text(s) == Text(t)
    ensures s == t
  {
    assert forall i :: 0 <= i < |s| ==> Text(s)[i] == s[i] as int && Text(t)[i] == t[i] as int;
  }

  function PartNames(parts: seq<Part>): (r: seq<string>)
    ensures |r| == |parts|
  {
    seq(|parts|, i requires 0 <= i < |parts| => parts[i].name)
  }

  predicate AllDifferent(names: seq<string>)
  {
    forall i, j :: 0 <= i < j < |names| ==> names[i] != names[j]
  }

  predicate DistinctParts(parts: seq<Part>)
  {
    AllDifferent(PartNames(parts))
  }

  /** A part is found under its name. */
  lemma {:induction false} PartFound(parts: seq<Part>, i: nat)
    requires WellPrinted(parts) && DistinctParts(parts) && i < |parts|
    ensures Text(parts[i].name) in PartValues(parts) && PartValues(parts)[Text(parts[i].name)] == parts[i].value
    decreases |parts|
  {
    hide Printed, Text, AsciiText;
    var n := |parts| - 1;
    if i < n {
      assert forall k :: 0 <= k < n ==> PartNames(parts[..n])[k] == PartNames(parts)[k];
      PartFound(parts[..n], i);
      assert PartNames(parts)[i] != PartNames(parts)[n];
      if Text(parts[i].name) == Text(parts[n].name) {
        TextInjective(parts[i].name, parts[n].name);
      }
    }
  }

  /** Only the parts are there. */
  lemma {:induction false} PartsOnly(parts: seq<Part>, name: string)
    requires WellPrinted(parts) && AsciiText(name)
    requires forall i :: 0 <= i < |parts| ==> parts[i].name != name
    ensures Text(name) !in PartValues(parts)
    decreases |parts|
  {
    hide Printed, Text, AsciiText;
    if parts != [] {
      var n := |parts| - 1;
      PartsOnly(parts[..n], name);
      if Text(name) == Text(parts[n].name) {
        TextInjective(name, parts[n].name);
      }
    }
  }

  function NumberPart(name: string, n: int): Part { Part(name, Signed(n), Integer(n)) }

  function TextPart(name: string, b: bytes): Part { Part(name, JsonString(b), Str(b)) }

  function BytesPart(name: string, b: bytes): Part { Part(name, EnvelopeText(b), ByteObject(b)) }

  function FlagPart(name: string, b: bool): Part { Part(name, Readback.Word(b), Bool(b)) }

  function OptionalPart(name: string, b: Option<bytes>): Part { Part(name, OptionalText(b), OptionalValue(b)) }

  lemma NumberGood(name: string, n: int)
    requires AsciiText(name)
    ensures Good(NumberPart(name, n))
  {
    hide Printed, Signed, AsciiText;
    SignedPrinted(n);
  }

  lemma LiteralGood(name: string, s: string)
    requires AsciiText(name)
    ensures Good(TextPart(name, Text(s)))
  {
    hide Printed, Utf8.Valid, Text, JsonString;
    LiteralPrinted(s);
  }

  lemma TextGood(name: string, b: bytes)
    requires AsciiText(name) && Utf8.Valid(b)
    ensures Good(TextPart(name, b))
  {
    hide Printed, Utf8.Valid, AsciiText, JsonString;
    StringPrinted(b);
  }

  lemma BytesGood(name: string, b: bytes)
    requires AsciiText(name)
    ensures Good(BytesPart(name, b))
  {
    hide Printed, EnvelopeText, Envelope, AsciiText;
    EnvelopePrinted(b);
  }

  lemma FlagGood(name: string, b: bool)
    requires AsciiText(name)
    ensures Good(FlagPart(name, b))
  {
    hide Printed, Readback.Word, AsciiText;
    Readback.WordPrinted(b);
  }

  lemma OptionalGood(name: string, b: Option<bytes>)
    requires AsciiText(name)
    ensures Good(OptionalPart(name, b))
  {
    hide Printed, OptionalText, OptionalValue, AsciiText;
    OptionalPrinted(b);
  }
}
