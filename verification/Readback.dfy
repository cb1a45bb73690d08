/** The bytes of a whole written stream, read line by line and parsed, are the emitted records again. */
module Readback {
  import opened Bytes
  import opened Records
  import opened JsonText
  import opened JsonParse
  import opened JsonLines
  import opened Reading
  import opened Writer
  import ByteValue
  import Utf8

  // Literals.

  lemma WordRenders(b: bool)
    ensures Renders(Word(b), Bool(b))
  {
    var text := Word(b);
    assert Text("true")[0] == 0x74 && Text("false")[0] == 0x66;
    forall rest | Delimited(rest)
      ensures ParsesTo(text, Bool(b), rest)
    {
      assert (text + rest)[..|text|] == text && (text + rest)[|text|..] == rest;
      WordParsed(b, text + rest);
    }
  }

  function Word(b: bool): bytes { if b then Text("true") else Text("false") }

  lemma WordParsed(b: bool, s: bytes)
    requires Starts(s, Word(b))
    ensures ParseValue(s) == Some(Parsed(Bool(b), s[|Word(b)|..]))
  {
    hide ParseString, ParseObject, ParseArray, ParseNumber;
    assert s[0] == s[..|Word(b)|][0];
    if !b {
      assert !Starts(s, Text("true")) by { assert Text("true")[0] == 0x74; }
    }
  }

  lemma WordPrinted(b: bool)
    ensures Printed(Word(b), Bool(b))
  {
    hide Renders, Utf8.Valid;
    WordRenders(b);
    AsciiValid(Word(b));
  }

  // One record.

  /** The type names are printed as they are. */
  lemma TypeNamePrinted(t: RecordType)
    ensures Printed(JsonString(TypeName(t)), Str(TypeName(t))) && Utf8.Valid(TypeName(t))
  {
    hide Printed, Utf8.Valid, JsonString;
    TypeNameAscii(t);
    ByteValue.AsciiString(TypeName(t));
  }

  lemma TypeNameAscii(t: RecordType)
    ensures ByteValue.Ascii(TypeName(t))
  {
    hide Text;
    match t
    case HeaderType => TextAscii("header");
    case ModuleType => TextAscii("module");
    case ConfigSourceType => TextAscii("config_source");
    case ConfigEntryType => TextAscii("config_entry");
    case EntryType => TextAscii("entry");
    case ArtifactBeginType => TextAscii("artifact_begin");
    case ArtifactChunkType => TextAscii("artifact_chunk");
    case ArtifactEndType => TextAscii("artifact_end");
    case DiagnosticType => TextAscii("diagnostic");
    case FooterType => TextAscii("footer");
  }

  /** The object a record line stands for: its fields, its number and its type. */
  function RecordObject(t: RecordType, sequence: nat, values: map<bytes, Json>): Json
  {
    ObjectOf(values[SEQUENCE := Integer(sequence)][TYPE := Str(TypeName(t))])
  }

  lemma Extended(fields: JsonFields, values: map<bytes, Json>, name: bytes, text: bytes, value: Json)
    requires AllPrinted(fields, values) && Utf8.Valid(name) && Printed(text, value)
    ensures AllPrinted(fields[name := text], values[name := value])
  {
    hide Printed, Utf8.Valid;
  }

  lemma FixedNamesValid()
    ensures Utf8.Valid(SEQUENCE) && Utf8.Valid(TYPE) && Utf8.Valid(COUNTS) && Utf8.Valid(STREAM_SHA256)
    ensures Utf8.Valid(SUCCESS)
  {
    hide Utf8.Valid;
    AsciiValid(SEQUENCE);
    AsciiValid(TYPE);
    AsciiValid(COUNTS);
    AsciiValid(STREAM_SHA256);
    AsciiValid(SUCCESS);
  }

  /** A record line is one printed object and a line feed. */
  lemma LinePrinted(t: RecordType, sequence: nat, fields: JsonFields, values: map<bytes, Json>) returns (text: bytes)
    requires AllPrinted(fields, values)
    ensures LineText(t, sequence, fields) == text + [LF] && Printed(text, RecordObject(t, sequence, values))
  {
    hide Printed, Utf8.Valid, ObjectText, ObjectOf, AllPrinted;
    FixedNamesValid();
    NumberPrinted(sequence);
    TypeNamePrinted(t);
    Extended(fields, values, SEQUENCE, Decimal(sequence), Integer(sequence));
    Extended(fields[SEQUENCE := Decimal(sequence)], values[SEQUENCE := Integer(sequence)],
             TYPE, JsonString(TypeName(t)), Str(TypeName(t)));
    text := ObjectText(fields[SEQUENCE := Decimal(sequence)][TYPE := JsonString(TypeName(t))]);
    ObjectPrinted(fields[SEQUENCE := Decimal(sequence)][TYPE := JsonString(TypeName(t))],
                  values[SEQUENCE := Integer(sequence)][TYPE := Str(TypeName(t))]);
  }

  // The tallies.

  /** The names of the first `n` record types that occur. */
  function CountNames(counts: map<RecordType, int>, n: nat): seq<bytes>
    requires n <= 10
  {
    if n == 0 then []
    else CountNames(counts, n - 1) + if TypeAt(n - 1) in counts then [TypeName(TypeAt(n - 1))] else []
  }

  function CountValues(counts: map<RecordType, int>, n: nat): (r: seq<Json>)
    requires n <= 10
    ensures |r| == |CountNames(counts, n)|
  {
    if n == 0 then []
    else
      CountValues(counts, n - 1)
      + if TypeAt(n - 1) in counts then [Integer(Magnitude(counts[TypeAt(n - 1)]))] else []
  }

  function CountNumbers(counts: map<RecordType, int>, n: nat): (r: seq<bytes>)
    requires n <= 10
    ensures |r| == |CountNames(counts, n)|
  {
    if n == 0 then []
    else
      CountNumbers(counts, n - 1)
      + if TypeAt(n - 1) in counts then [Decimal(Magnitude(counts[TypeAt(n - 1)]))] else []
  }

  lemma {:induction false} CountTextsAre(counts: map<RecordType, int>, n: nat)
    requires n <= 10
    ensures CountTexts(counts, n) == MemberTexts(CountNames(counts, n), CountNumbers(counts, n))
  {
    hide TypeName, TypeAt, MemberText, Decimal;
    if n > 0 {
      CountTextsAre(counts, n - 1);
    }
  }

  lemma {:induction false} CountsPrint(counts: map<RecordType, int>, n: nat)
    requires n <= 10
    ensures forall i :: 0 <= i < |CountNames(counts, n)| ==>
              && Utf8.Valid(CountNames(counts, n)[i])
              && Printed(CountNumbers(counts, n)[i], CountValues(counts, n)[i])
  {
    hide TypeName, TypeAt, Printed, Utf8.Valid, Decimal, JsonString;
    if n > 0 {
      CountsPrint(counts, n - 1);
      TypeNamePrinted(TypeAt(n - 1));
      if TypeAt(n - 1) in counts {
        NumberPrinted(Magnitude(counts[TypeAt(n - 1)]));
      }
    }
  }

  /** `TypeAt` follows the bytewise order of the names. */
  lemma TypeNamesAscend(i: nat)
    requires i < 9
    ensures Less(TypeName(TypeAt(i)), TypeName(TypeAt(i + 1)))
  {
    hide Less;
    var common := if i == 0 || i == 1 then 9 else if i == 3 then 7 else 0;
    LessAt(TypeName(TypeAt(i)), TypeName(TypeAt(i + 1)), common);
  }

  lemma {:induction false} TypeNamesIncrease(i: nat, j: nat)
    requires i < j < 10
    ensures Less(TypeName(TypeAt(i)), TypeName(TypeAt(j)))
    decreases j
  {
    hide Less, TypeName, TypeAt;
    TypeNamesAscend(j - 1);
    if i < j - 1 {
      TypeNamesIncrease(i, j - 1);
      LessTransitive(TypeName(TypeAt(i)), TypeName(TypeAt(j - 1)), TypeName(TypeAt(j)));
    }
  }

  lemma {:induction false} CountNamesIncrease(counts: map<RecordType, int>, n: nat)
    requires n <= 10
    ensures Increasing(CountNames(counts, n))
    ensures forall name :: name in CountNames(counts, n) ==> n < 10 ==> Less(name, TypeName(TypeAt(n)))
    ensures forall name :: name in CountNames(counts, n) ==> exists i :: 0 <= i < n && name == TypeName(TypeAt(i))
  {
    hide Less, TypeName, TypeAt;
    if n > 0 {
      CountNamesIncrease(counts, n - 1);
      forall name | name in CountNames(counts, n) && n < 10
        ensures Less(name, TypeName(TypeAt(n)))
      {
        var i :| 0 <= i < n && name == TypeName(TypeAt(i));
        TypeNamesIncrease(i, n);
      }
    }
  }

  /** What the tallies stand for. */
  function CountsObject(counts: map<RecordType, int>): Json
  {
    Object(MembersOf(CountNames(counts, 10), CountValues(counts, 10)))
  }

  lemma CountsPrinted(counts: map<RecordType, int>)
    ensures Printed(CountsText(counts), CountsObject(counts))
  {
    hide Printed, Utf8.Valid, Commas, CountTexts, CountNames, CountValues, CountNumbers, Increasing, MembersOf,
      MemberTexts;
    CountTextsAre(counts, 10);
    CountsPrint(counts, 10);
    CountNamesIncrease(counts, 10);
    BracesPrinted(CountNames(counts, 10), CountNumbers(counts, 10), CountValues(counts, 10));
  }

  /** Each type that occurs is a member with its count, and there are no others. */
  lemma {:induction false} CountsObjectHas(counts: map<RecordType, int>, n: nat, t: RecordType)
    requires n <= 10
    ensures (exists i :: 0 <= i < n && TypeAt(i) == t) && t in counts ==>
              exists k :: 0 <= k < |CountNames(counts, n)|
                          && MembersOf(CountNames(counts, n), CountValues(counts, n))[k]
                             == Member(TypeName(t), Integer(Magnitude(counts[t])))
    ensures TypeName(t) in CountNames(counts, n) ==> t in counts
  {
    if n > 0 {
      hide TypeAt, TypeName;
      CountsObjectHas(counts, n - 1, t);
      TypeNamesDiffer(TypeAt(n - 1), t);
      var before := MembersOf(CountNames(counts, n - 1), CountValues(counts, n - 1));
      var after := MembersOf(CountNames(counts, n), CountValues(counts, n));
      assert forall k :: 0 <= k < |before| ==> after[k] == before[k];
      if TypeAt(n - 1) == t && t in counts {
        assert after[|before|] == Member(TypeName(t), Integer(Magnitude(counts[t])));
      }
    }
  }

  function Position(t: RecordType): (i: nat)
    ensures i < 10 && TypeAt(i) == t
  {
    match t
    case ArtifactBeginType => 0
    case ArtifactChunkType => 1
    case ArtifactEndType => 2
    case ConfigEntryType => 3
    case ConfigSourceType => 4
    case DiagnosticType => 5
    case EntryType => 6
    case FooterType => 7
    case HeaderType => 8
    case ModuleType => 9
  }

  lemma TypeNamesDiffer(s: RecordType, t: RecordType)
    ensures TypeName(s) == TypeName(t) ==> s == t
  {
    hide TypeName, TypeAt, Less;
    if Position(s) < Position(t) {
      TypeNamesIncrease(Position(s), Position(t));
    } else if Position(t) < Position(s) {
      TypeNamesIncrease(Position(t), Position(s));
    }
    LessIrreflexive(TypeName(s));
  }

  // The footer.

  predicate Unreserved(fields: JsonFields)
  {
    SEQUENCE !in fields && TYPE !in fields && COUNTS !in fields && STREAM_SHA256 !in fields && SUCCESS !in fields
  }

  function FooterValues(counts: map<RecordType, int>, digest: bytes, success: bool,
                        values: map<bytes, Json>): map<bytes, Json>
  {
    values[COUNTS := CountsObject(counts)][STREAM_SHA256 := Str(digest)][SUCCESS := Bool(success)]
  }

  function FooterFields(counts: map<RecordType, int>, digest: bytes, success: bool, fields: JsonFields): JsonFields
  {
    fields[COUNTS := CountsText(counts)][STREAM_SHA256 := JsonString(digest)][SUCCESS := Word(success)]
  }

  lemma ReservedNamesDiffer()
    ensures COUNTS != SEQUENCE && COUNTS != STREAM_SHA256 && COUNTS != SUCCESS && COUNTS != TYPE
    ensures SEQUENCE != STREAM_SHA256 && SEQUENCE != SUCCESS && SEQUENCE != TYPE
    ensures STREAM_SHA256 != SUCCESS && STREAM_SHA256 != TYPE && SUCCESS != TYPE
  {
    assert |COUNTS| == 6 && |SEQUENCE| == 8 && |STREAM_SHA256| == 13 && |SUCCESS| == 7 && |TYPE| == 4;
  }

  /** The footer is printed like any other record, with the writer's own members added. */
  lemma FooterIsLine(counts: map<RecordType, int>, sequence: nat, digest: bytes, success: bool, fields: JsonFields)
    requires Unreserved(fields)
    ensures FooterText(counts, sequence, digest, success, fields) ==
            LineText(FooterType, sequence, FooterFields(counts, digest, success, fields))
  {
    hide CountsText, JsonString, Decimal, ObjectText, TypeName;
    ReservedNamesDiffer();
    var printed := JsonString(TypeName(FooterType));
    assert fields[COUNTS := CountsText(counts)][SEQUENCE := Decimal(sequence)][STREAM_SHA256 := JsonString(digest)]
                 [SUCCESS := Word(success)][TYPE := printed]
        == FooterFields(counts, digest, success, fields)[SEQUENCE := Decimal(sequence)][TYPE := printed];
  }

  lemma FooterFieldsPrinted(counts: map<RecordType, int>, digest: bytes, success: bool, fields: JsonFields,
                            values: map<bytes, Json>)
    requires AllPrinted(fields, values) && Utf8.Valid(digest)
    ensures AllPrinted(FooterFields(counts, digest, success, fields), FooterValues(counts, digest, success, values))
  {
    hide Printed, Utf8.Valid, AllPrinted, CountsText, CountsObject, JsonString;
    FixedNamesValid();
    CountsPrinted(counts);
    StringPrinted(digest);
    WordPrinted(success);
    Extended(fields, values, COUNTS, CountsText(counts), CountsObject(counts));
    var f, v := fields[COUNTS := CountsText(counts)], values[COUNTS := CountsObject(counts)];
    Extended(f, v, STREAM_SHA256, JsonString(digest), Str(digest));
    Extended(f[STREAM_SHA256 := JsonString(digest)], v[STREAM_SHA256 := Str(digest)], SUCCESS, Word(success),
             Bool(success));
  }

  // A whole stream.

  /** What one call of `emit` or `finish` was given: the printed members and the values they stand for. */
  datatype Emission = Emission(kind: RecordType, fields: JsonFields, values: map<bytes, Json>)

  /** The lines are those of the emissions, numbered from 0. */
  ghost predicate LinesOf(lines: seq<Line>, emissions: seq<Emission>)
  {
    && |lines| == |emissions|
    && forall i :: 0 <= i < |lines| ==>
         && AllPrinted(emissions[i].fields, emissions[i].values)
         && lines[i].raw == LineText(emissions[i].kind, i, emissions[i].fields)
  }

  /** A line that `emit` adds. */
  lemma EmittedLine(lines: seq<Line>, emissions: seq<Emission>, line: Line, e: Emission)
    requires LinesOf(lines, emissions) && AllPrinted(e.fields, e.values)
    requires line.raw == LineText(e.kind, |lines|, e.fields)
    ensures LinesOf(lines + [line], emissions + [e])
  {
    hide LineText, AllPrinted;
  }

  /** The line that `finish` adds. */
  lemma FinishedLine(lines: seq<Line>, emissions: seq<Emission>, line: Line, counts: map<RecordType, int>,
                     digest: bytes, success: bool, fields: JsonFields, values: map<bytes, Json>)
    requires LinesOf(lines, emissions) && AllPrinted(fields, values) && Unreserved(fields) && Utf8.Valid(digest)
    requires line.raw == FooterText(counts, |lines|, digest, success, fields)
    ensures LinesOf(lines + [line], emissions + [Emission(FooterType, FooterFields(counts, digest, success, fields),
                                                          FooterValues(counts, digest, success, values))])
  {
    hide LineText, FooterText, AllPrinted, FooterFields, FooterValues, Utf8.Valid, Unreserved, LinesOf;
    FooterIsLine(counts, |lines|, digest, success, fields);
    FooterFieldsPrinted(counts, digest, success, fields, values);
    EmittedLine(lines, emissions, line, Emission(FooterType, FooterFields(counts, digest, success, fields),
                                                 FooterValues(counts, digest, success, values)));
  }

  function Objects(emissions: seq<Emission>): (r: seq<Json>)
    ensures |r| == |emissions|
  {
    seq(|emissions|, i requires 0 <= i < |emissions| => RecordObject(emissions[i].kind, i, emissions[i].values))
  }

  lemma {:induction false} TextsOf(lines: seq<Line>, emissions: seq<Emission>, n: nat) returns (texts: seq<bytes>)
    requires LinesOf(lines, emissions) && n <= |lines|
    ensures |texts| == n
    ensures forall i :: 0 <= i < n ==> lines[i].raw == texts[i] + [LF] && Printed(texts[i], Objects(emissions)[i])
  {
    hide Printed, LineText, AllPrinted, RecordObject;
    if n == 0 {
      texts := [];
    } else {
      texts := TextsOf(lines, emissions, n - 1);
      var last := LinePrinted(emissions[n - 1].kind, n - 1, emissions[n - 1].fields, emissions[n - 1].values);
      texts := texts + [last];
    }
  }

  lemma PrintedLine(text: bytes, value: Json)
    requires Printed(text, value)
    ensures LF !in text && text != []
  {
    hide Utf8.Valid;
    assert 0x0a < 0x20;
  }

  lemma FramedTexts(texts: seq<bytes>, maximum: nat)
    requires forall i :: 0 <= i < |texts| ==> LF !in texts[i] && texts[i] != []
    ensures SplitLines(Concat(Terminated(texts))) == Some(texts)
    ensures Framed(SplitLines(Concat(Terminated(texts))), maximum) <==>
            forall i :: 0 <= i < |texts| ==> |texts[i]| < maximum
  {
    hide SplitLines, Terminated;
    SplitTerminated(texts);
    assert forall i :: 0 <= i < |texts| ==> texts[i] in texts;
  }

  /** The consumer reads exactly the emitted records back, fields, numbers and types, as long as no line is longer than
      its limit; one that is longer stops it. */
  lemma WrittenStreamReads(lines: seq<Line>, emissions: seq<Emission>, maximum: nat)
    requires LinesOf(lines, emissions)
    ensures (exists r :: ReadsAs(RawOf(lines), maximum, r)) <==>
            forall i :: 0 <= i < |lines| ==> |lines[i].raw| <= maximum
    ensures (forall i :: 0 <= i < |lines| ==> |lines[i].raw| <= maximum) ==>
              ReadsAs(RawOf(lines), maximum, Objects(emissions))
  {
    hide SplitLines, ParseText, Printed, Framed, ReadStream, LinesOf, RecordObject, Terminated;
    var texts := TextsOf(lines, emissions, |lines|) by {
      assert |lines| == |emissions| by { LinesMatch(lines, emissions); }
    }
    LinesMatch(lines, emissions);
    forall i | 0 <= i < |texts|
      ensures LF !in texts[i] && texts[i] != [] && Terminated(texts)[i] == lines[i].raw
      ensures |lines[i].raw| == |texts[i]| + 1
    {
      PrintedLine(texts[i], Objects(emissions)[i]);
      TerminatedAt(texts, i);
    }
    assert RawOf(lines) == Concat(Terminated(texts)) by { assert RawLines(lines) == Terminated(texts); }
    FramedTexts(texts, maximum);
    StreamReadsBack(texts, Objects(emissions));
    AllObjects(emissions);
    assert (forall i :: 0 <= i < |lines| ==> |lines[i].raw| <= maximum) <==>
           Framed(SplitLines(RawOf(lines)), maximum);
    if Framed(SplitLines(RawOf(lines)), maximum) {
      assert ReadsAs(RawOf(lines), maximum, Objects(emissions));
    }
  }

  lemma LinesMatch(lines: seq<Line>, emissions: seq<Emission>)
    requires LinesOf(lines, emissions)
    ensures |lines| == |emissions|
  {
  }

  lemma TerminatedAt(texts: seq<bytes>, i: nat)
    requires i < |texts|
    ensures Terminated(texts)[i] == texts[i] + [LF]
  {
  }

  lemma AllObjects(emissions: seq<Emission>)
    ensures forall record :: record in Objects(emissions) ==> record.Object?
  {
  }
}
