/** The two sides over octets: what the producer hands out is what the validator takes in. */
module Octets {
  import opened Agreement
  import opened Artifacts
  import opened Bytes
  import opened CApi
  import opened Delivery
  import opened Extraction
  import opened JsonText
  import opened JsonLines
  import opened JsonParse
  import opened Printables
  import opened Production
  import opened RecordCodec
  import opened RecordLines
  import opened RecordReading
  import opened Records
  import opened Reading
  import opened Session
  import opened Sha256Spec
  import opened Validation
  import CallbackStream
  import Consumer
  import DetailShape
  import Embedding
  import FooterTrip
  import Grammar
  import JsonGrammar
  import JsonObjects
  import JsonTheorem
  import Readback
  import RecordDetail
  import RecordText
  import Schema
  import Utf8
  import Writer

  // Reading a stream.

  function LinesFrom(texts: seq<bytes>): (r: Option<seq<Line>>)
  {
    if texts == [] then Some([])
    else
      var before, last := LinesFrom(texts[..|texts| - 1]), LineFrom(texts[|texts| - 1]);
      if before.None? || last.None? then None else Some(before.value + [last.value])
  }

  /** The lines of a stream of octets, with the records they stand for. */
  function StreamFrom(stream: bytes, maximum: nat): Option<seq<Line>>
  {
    var texts := SplitLines(stream);
    if !Framed(texts, maximum) then None else LinesFrom(texts.value)
  }

  /** The validator's verdict on a stream of octets. */
  predicate AcceptsOctets(stream: bytes, maximum: nat)
  {
    var lines := StreamFrom(stream, maximum);
    lines.Some? && Accepts(lines.value)
  }

  /** Framing, then every line in turn. */
  method ReadStream(stream: bytes, maximum: nat) returns (lines: Option<seq<Line>>)
    requires maximum >= 1024
    ensures lines == StreamFrom(stream, maximum)
  {
    hide SplitLines, LineFrom, Framed;
    var texts := ReadLines(stream, maximum);
    if texts.None? {
      return None;
    }
    var read: seq<Line> := [];
    for i := 0 to |texts.value|
      invariant LinesFrom(texts.value[..i]) == Some(read)
    {
      LinesFromNext(texts.value, i);
      var line := LineFrom(texts.value[i]);
      if line.None? {
        Unreadable(texts.value, i + 1);
        return None;
      }
      read := read + [line.value];
    }
    assert texts.value[..|texts.value|] == texts.value;
    return Some(read);
  }

  /** The consumer as a whole: framing, parsing, and validation of every line. */
  method ValidateStream(stream: bytes, maximum: nat) returns (summary: Option<Consumer.Summary>)
    requires maximum >= 1024
    ensures summary.Some? <==> AcceptsOctets(stream, maximum)
    ensures summary.Some? ==>
              summary == Some(Consumer.SummaryOf(Run(INITIAL_STATE, StreamFrom(stream, maximum).value).value))
  {
    hide StreamFrom, Accepts, Run, Consumer.SummaryOf;
    var lines := ReadStream(stream, maximum);
    if lines.None? {
      return None;
    }
    var validator := new Consumer.Validator();
    summary := validator.Validate(lines.value);
  }

  lemma LinesFromNext(texts: seq<bytes>, i: nat)
    requires i < |texts|
    ensures LinesFrom(texts[..i + 1]) ==
            var before, last := LinesFrom(texts[..i]), LineFrom(texts[i]);
            if before.None? || last.None? then None else Some(before.value + [last.value])
  {
    hide LineFrom;
    assert texts[..i + 1][..i] == texts[..i];
  }

  lemma {:induction false} Unreadable(texts: seq<bytes>, i: nat)
    requires i <= |texts| && LinesFrom(texts[..i]).None?
    ensures LinesFrom(texts).None?
    decreases |texts| - i
  {
    hide LinesFrom;
    if i < |texts| {
      LinesFromNext(texts, i);
      Unreadable(texts, i + 1);
    } else {
      assert texts[..i] == texts;
    }
  }

  // What is read is JSON.

  lemma {:induction false} LineRead(texts: seq<bytes>, i: nat)
    requires LinesFrom(texts).Some? && i < |texts|
    ensures LineFrom(texts[i]).Some?
    decreases |texts|
  {
    hide LineFrom;
    if i < |texts| - 1 {
      LineRead(texts[..|texts| - 1], i);
    }
  }

  /** One line: a JSON object in which no object, at whatever depth, repeats a name. */
  ghost predicate OneObject(text: bytes)
  {
    exists j :: JsonGrammar.Derives(text, j) && j.Object? && JsonObjects.Unambiguous(j)
  }

  lemma LineIsObject(text: bytes)
    requires LineFrom(text).Some?
    ensures OneObject(text)
  {
    hide ParseText, JsonGrammar.Derives, JsonObjects.Unambiguous, TypeFrom, Shaped, RecordFrom, Get;
    var j := ParseText(text).value;
    JsonTheorem.ParsedIffDerived(text, j);
  }

  /** A stream that is accepted holds one JSON object on every line, and none that repeats a name. */
  lemma AcceptedIsJson(stream: bytes, maximum: nat)
    requires AcceptsOctets(stream, maximum)
    ensures var texts := SplitLines(stream);
            texts.Some? && forall i :: 0 <= i < |texts.value| ==> OneObject(texts.value[i])
  {
    hide SplitLines, LineFrom, LinesFrom, Accepts, OneObject, Framed;
    FramedIsSplit(SplitLines(stream), maximum);
    var texts := SplitLines(stream).value;
    forall i | 0 <= i < |texts|
      ensures OneObject(texts[i])
    {
      LineRead(texts, i);
      LineIsObject(texts[i]);
    }
  }

  lemma FramedIsSplit(texts: Option<seq<bytes>>, maximum: nat)
    requires Framed(texts, maximum)
    ensures texts.Some?
  {
  }

  /** A stream with a line that repeats a name in one of its objects is refused. */
  lemma RepeatedNameRefused(stream: bytes, maximum: nat, i: nat, j: Json)
    requires SplitLines(stream).Some? && i < |SplitLines(stream).value|
    requires JsonGrammar.Derives(SplitLines(stream).value[i], j) && !JsonObjects.Unambiguous(j)
    ensures !AcceptsOctets(stream, maximum)
  {
    hide SplitLines, AcceptsOctets, OneObject, ParseText, JsonGrammar.Derives, JsonObjects.Unambiguous;
    if AcceptsOctets(stream, maximum) {
      AcceptedIsJson(stream, maximum);
      OnlyValue(SplitLines(stream).value[i], j);
    }
  }

  lemma OnlyValue(text: bytes, j: Json)
    requires OneObject(text) && JsonGrammar.Derives(text, j)
    ensures JsonObjects.Unambiguous(j)
  {
    hide ParseText, JsonGrammar.Derives, JsonObjects.Unambiguous;
    var k :| JsonGrammar.Derives(text, k) && k.Object? && JsonObjects.Unambiguous(k);
    JsonTheorem.ParsedIffDerived(text, k);
    JsonTheorem.TextRead(text, j);
  }

  // Every line keeps to the schema.

  ghost predicate KeepsSchema(text: bytes)
  {
    exists m: seq<Member> :: ParseText(text) == Some(Object(m)) && Schema.Conforms(m)
  }

  lemma {:induction false} LineAt(texts: seq<bytes>, i: nat)
    requires LinesFrom(texts).Some? && i < |texts|
    ensures i < |LinesFrom(texts).value| && LineFrom(texts[i]) == Some(LinesFrom(texts).value[i])
    decreases |texts|
  {
    hide LineFrom;
    LinesAsMany(texts[..|texts| - 1]);
    if i < |texts| - 1 {
      LineAt(texts[..|texts| - 1], i);
    }
  }

  lemma {:induction false} LinesAsMany(texts: seq<bytes>)
    ensures LinesFrom(texts).Some? ==> |LinesFrom(texts).value| == |texts|
  {
    hide LineFrom;
    if texts != [] {
      LinesAsMany(texts[..|texts| - 1]);
    }
  }

  /** The validator takes a line only with the next number, and a footer only with a digest. */
  lemma {:induction false} TakenIsSound(s: State, lines: seq<Line>, i: nat)
    requires Run(s, lines).Some? && i < |lines|
    ensures lines[i].sequence >= 0 && Schema.Sound(lines[i])
    decreases |lines|
  {
    hide Step, Schema.Sound;
    if i > 0 {
      TakenIsSound(Step(s, lines[0]).value, lines[1..], i - 1);
    } else {
      StepIsSound(s, lines[0]);
    }
  }

  lemma StepIsSound(s: State, line: Line)
    requires Step(s, line).Some?
    ensures line.sequence >= 0 && Schema.Sound(line)
  {
    hide StepRecord, Sha256Hex, Schema.HexDigest, TotalSize;
    Schema.HexIsDigest(s.hashed);
  }

  lemma SoundKeeps(text: bytes)
    requires LineFrom(text).Some? && LineFrom(text).value.sequence >= 0 && Schema.Sound(LineFrom(text).value)
    ensures KeepsSchema(text)
  {
    hide LineFrom, ParseText, Schema.SaysRecord, Schema.Conforms, Schema.Has, Schema.Sound;
    Schema.LineTells(text);
    var m: seq<Member> :|
      && ParseText(text) == Some(Object(m)) && Schema.Has(m, "sequence", Integer(LineFrom(text).value.sequence))
      && Schema.SaysRecord(m, LineFrom(text).value.record)
      && (Schema.Sound(LineFrom(text).value) ==> Schema.Conforms(m));
  }

  /** Every line of an accepted stream keeps to the published schema. */
  lemma AcceptedKeepSchema(stream: bytes, maximum: nat)
    requires AcceptsOctets(stream, maximum)
    ensures var texts := SplitLines(stream);
            texts.Some? && forall i :: 0 <= i < |texts.value| ==> KeepsSchema(texts.value[i])
  {
    hide SplitLines, LineFrom, LinesFrom, KeepsSchema, Framed, Run, Complete, Schema.Sound;
    FramedIsSplit(SplitLines(stream), maximum);
    var texts := SplitLines(stream).value;
    forall i | 0 <= i < |texts|
      ensures KeepsSchema(texts[i])
    {
      LineAt(texts, i);
      TakenIsSound(INITIAL_STATE, LinesFrom(texts).value, i);
      SoundKeeps(texts[i]);
    }
  }

  // Reading what was written.

  /** A line whose octets say what its record says. */
  ghost predicate Legible(line: Line)
  {
    exists text: bytes :: line.raw == text + [LF] && LF !in text && text != [] && LineFrom(text) == Some(line)
  }

  lemma {:induction false} LegibleTexts(lines: seq<Line>) returns (texts: seq<bytes>)
    requires forall i :: 0 <= i < |lines| ==> Legible(lines[i])
    ensures |texts| == |lines| && LinesFrom(texts) == Some(lines)
    ensures forall i :: 0 <= i < |lines| ==> lines[i].raw == texts[i] + [LF] && LF !in texts[i] && texts[i] != []
  {
    hide LineFrom;
    if lines == [] {
      texts := [];
    } else {
      var n := |lines| - 1;
      texts := LegibleTexts(lines[..n]);
      assert Legible(lines[n]);
      var last: bytes :| lines[n].raw == last + [LF] && LF !in last && last != [] && LineFrom(last) == Some(lines[n]);
      assert (texts + [last])[..n] == texts && lines[..n] + [lines[n]] == lines;
      texts := texts + [last];
    }
  }

  predicate Fits(lines: seq<Line>, maximum: nat)
  {
    forall i :: 0 <= i < |lines| ==> |lines[i].raw| <= maximum
  }

  /** A stream of legible lines is read as exactly these lines, unless one of them is too long. */
  lemma StreamRead(lines: seq<Line>, maximum: nat)
    requires forall i :: 0 <= i < |lines| ==> Legible(lines[i])
    ensures StreamFrom(RawOf(lines), maximum) == if Fits(lines, maximum) then Some(lines) else None
  {
    hide SplitLines, LineFrom, Framed, Legible, Terminated, LinesFrom;
    var texts := LegibleTexts(lines);
    forall i | 0 <= i < |texts|
      ensures Terminated(texts)[i] == lines[i].raw && |lines[i].raw| == |texts[i]| + 1
    {
      Readback.TerminatedAt(texts, i);
    }
    assert RawOf(lines) == Concat(Terminated(texts)) by { assert RawLines(lines) == Terminated(texts); }
    Readback.FramedTexts(texts, maximum);
  }

  // Rendering.

  /** These are the members the producer prints of a record, with some detail beside what the record says. */
  ghost predicate Carried(r: Record, fields: JsonFields)
  {
    exists d: RecordDetail.Detail :: RecordDetail.Fits(r, d) && fields == RecordDetail.FullFields(r, d)
  }

  /** At every position the rendering prints every record that can be printed, each time with details of its own. */
  ghost predicate Expressive(render: Rendering)
  {
    forall i, r | Printable(r) :: Carried(r, render(i, r))
  }

  const NO_CODE := RecordDetail.Coded(0, "")

  /** A detail for every kind of record. */
  function AnyDetail(r: Record): (d: RecordDetail.Detail)
    ensures RecordDetail.Fits(r, d)
  {
    match r
    case Header(_, _) =>
      RecordText.NamePrinted("");
      RecordDetail.Versions(Text(""), Text(""))
    case Module => RecordDetail.Description(RecordDetail.Unknown, [], [], [], [], [], NO_CODE, NO_CODE, NO_CODE)
    case Entry(_) => RecordDetail.Around([], RecordDetail.NO_NAMES)
    case Diagnostic(_, _) => RecordDetail.Message([], [])
    case _ => RecordDetail.Nothing
  }

  /** The rendering in which nothing beside the record says anything. */
  function PlainRendering(i: nat, r: Record): JsonFields
  {
    if Printable(r) then RecordDetail.FullFields(r, AnyDetail(r)) else map[]
  }

  /** There are such renderings: the plain one is one. */
  lemma PlainIsExpressive()
    ensures Expressive(PlainRendering) && Reserved(PlainRendering)
  {
    hide Printable, RecordDetail.FullFields, RecordDetail.Fits, AnyDetail;
    forall i: nat, r: Record
      ensures Printable(r) ==> Carried(r, PlainRendering(i, r))
      ensures Writer.SEQUENCE !in PlainRendering(i, r) && Writer.TYPE !in PlainRendering(i, r)
    {
      if Printable(r) {
        DetailReserved(r, AnyDetail(r));
      }
    }
  }

  /** No printed member is called like those the writer adds. */
  lemma DetailReserved(r: Record, d: RecordDetail.Detail)
    requires Printable(r) && RecordDetail.Fits(r, d)
    ensures Writer.SEQUENCE !in RecordDetail.FullFields(r, d) && Writer.TYPE !in RecordDetail.FullFields(r, d)
  {
    hide Printable, PartsOf, RecordDetail.DetailParts, RecordDetail.ScopeExtras, RecordDetail.Fits, RecordText.Good,
      RecordText.DistinctParts, RecordText.PartFields, RecordText.PartValues, Text;
    var parts := DetailShape.AllParts(r, d);
    PrintableIsNoFooter(r);
    DetailShape.FullPrinted(r, d);
    DetailShape.FullDistinct(r, d);
    RecordText.PartsPrinted(parts);
    assert forall i :: 0 <= i < |parts| ==> RecordText.PartNames(parts)[i] == parts[i].name;
    RecordText.PartsOnly(parts, "sequence");
    RecordText.PartsOnly(parts, "type");
    DetailShape.FieldsAppend(RecordDetail.DetailParts(d), PartsOf(r, RecordDetail.ScopeExtras(r, d)));
  }

  lemma RecordLegible(render: Rendering, line: Line, i: nat)
    requires Expressive(render) && Printable(line.record) && line.sequence == i
    requires line.raw == Writer.LineText(TypeOf(line.record), i, render(i, line.record))
    ensures Legible(line)
  {
    hide LineFrom, Printable, RecordDetail.Fits, RecordDetail.FullFields, Writer.LineText, TypeOf;
    var r := line.record;
    assert Carried(r, render(i, r));
    var d: RecordDetail.Detail :| RecordDetail.Fits(r, d) && render(i, r) == RecordDetail.FullFields(r, d);
    var text := Embedding.FullLineRead(r, d, i);
  }

  /** What a footer must be for its line to say it. */
  predicate Reportable(f: Record)
    requires f.Footer?
  {
    FooterTrip.CountsSound(f.counts) && Natural(f.diagnostics) && Utf8.Valid(f.streamSha256)
  }

  lemma FooterLegible(line: Line, i: nat)
    requires line.record.Footer? && Reportable(line.record) && line.sequence == i
    requires line.record.artifactBytes >= 0 && line.record.artifacts >= 0 && line.record.entries >= 0
    requires line.raw == FooterLine(line.record, i)
    ensures Legible(line)
  {
    hide LineFrom, Writer.FooterText, Session.FooterFields, Utf8.Valid, FooterTrip.CountsSound;
    var f := line.record;
    var text := FooterTrip.FooterLineRead(f, Totals(f.diagnostics, f.entries), i);
  }

  /** A line of a finished stream says what its record says, and keeps to the published schema. */
  ghost predicate Lawful(line: Line)
  {
    exists text: bytes :: line.raw == text + [LF] && LF !in text && KeepsSchema(text) && Schema.Tells(text, line)
  }

  lemma LegibleIsLawful(line: Line)
    requires Legible(line) && line.sequence >= 0 && Schema.Sound(line)
    ensures Lawful(line)
  {
    hide LineFrom, KeepsSchema, Schema.Tells, Schema.Sound;
    var text: bytes :| line.raw == text + [LF] && LF !in text && text != [] && LineFrom(text) == Some(line);
    SoundKeeps(text);
    Schema.LineTells(text);
  }

  /** So is every line of a finished stream, accepted or not. */
  lemma SpelledKeepSchema(lines: seq<Line>, render: Rendering)
    requires Spelled(lines, render) && Expressive(render) && Grammar.Sequenced(lines)
    requires AllPrintable(RecordsOf(lines[..|lines| - 1])) && Reportable(lines[|lines| - 1].record)
    requires Schema.HexDigest(lines[|lines| - 1].record.streamSha256)
    ensures AllLawful(lines)
  {
    hide *;
    SpelledLegible(lines, render);
    IsFooter(lines, render);
    forall i | 0 <= i < |lines|
      ensures Lawful(lines[i])
    {
      if i < |lines| - 1 {
        BodyIsSound(lines, i);
      } else {
        FooterIsSound(lines);
      }
      LegibleIsLawful(lines[i]);
    }
    AreLawful(lines);
  }

  ghost predicate AllLawful(lines: seq<Line>)
  {
    forall i :: 0 <= i < |lines| ==> Lawful(lines[i])
  }

  lemma AreLawful(lines: seq<Line>)
    requires forall i :: 0 <= i < |lines| ==> Lawful(lines[i])
    ensures AllLawful(lines)
  {
  }

  lemma BodyIsSound(lines: seq<Line>, i: nat)
    requires i < |lines| - 1 && Grammar.Sequenced(lines) && AllPrintable(RecordsOf(lines[..|lines| - 1]))
    ensures lines[i].sequence >= 0 && Schema.Sound(lines[i])
  {
    hide Printable, Schema.HexDigest;
    var body := lines[..|lines| - 1];
    assert body[i] == lines[i] && RecordsOf(body)[i] == lines[i].record;
    PrintableIsNoFooter(lines[i].record);
  }

  lemma FooterIsSound(lines: seq<Line>)
    requires lines != [] && Grammar.Sequenced(lines) && lines[|lines| - 1].record.Footer?
    requires Schema.HexDigest(lines[|lines| - 1].record.streamSha256)
    ensures lines[|lines| - 1].sequence >= 0 && Schema.Sound(lines[|lines| - 1])
  {
    hide Schema.HexDigest;
  }

  /** Every line of a finished stream is legible. */
  lemma SpelledLegible(lines: seq<Line>, render: Rendering)
    requires Spelled(lines, render) && Expressive(render) && Grammar.Sequenced(lines)
    requires AllPrintable(RecordsOf(lines[..|lines| - 1])) && Reportable(lines[|lines| - 1].record)
    ensures forall i :: 0 <= i < |lines| ==> Legible(lines[i])
  {
    hide Legible, Expressive, Printable, Reportable, FooterLine, Writer.LineText, TypeOf;
    var n := |lines| - 1;
    var body := lines[..n];
    forall i | 0 <= i < |lines|
      ensures Legible(lines[i])
    {
      if i < n {
        assert body[i] == lines[i] && RecordsOf(body)[i] == lines[i].record;
        RecordLegible(render, lines[i], i);
      } else {
        FooterLegible(lines[n], n);
      }
    }
  }

  // Runs.

  lemma TotalsNatural(rootValid: bool, m: Option<ModuleFacts>, chunkSize: nat, fault: Option<Fault>, course: Course)
    requires Possible(rootValid, m, chunkSize, fault, course)
    ensures Natural(TotalsOf(m, chunkSize, fault, course).diagnostics)
  {
    hide CountedPart, ReportedProblems, Established, FilesFrom, ArtifactPart, Tally;
    match course {
      case Refused =>
      case Whole(f) =>
        TallyNatural(NO_TOTALS, CountedPart(m, f));
        if m.Some? {
          TallyNatural(Tally(NO_TOTALS, CountedPart(m, f)), ReportedProblems(f.candidates, m.value.world, chunkSize));
        }
      case BrokenCounted(f, k) => TallyNatural(NO_TOTALS, CountedPart(m, f)[..k]);
      case BrokenArtifacts(f, _) => TallyNatural(NO_TOTALS, CountedPart(m, f));
    }
    TallyNatural(GuardedTotals(m, chunkSize, fault, course), LastWords(course));
  }

  lemma {:induction false} NoFooterTypes(lines: seq<Line>)
    requires AllPrintable(RecordsOf(lines))
    ensures Grammar.TypeCount(lines, FooterType) == 0
  {
    if lines != [] {
      var n := |lines| - 1;
      assert RecordsOf(lines)[n] == lines[n].record;
      PrintableIsNoFooter(lines[n].record);
      assert RecordsOf(lines[..n]) == RecordsOf(lines)[..n];
      PrintableTake(RecordsOf(lines), n);
      hide Printable;
      NoFooterTypes(lines[..n]);
    }
  }

  lemma PrintableIsNoFooter(r: Record)
    requires Printable(r)
    ensures TypeOf(r) != FooterType
  {
  }

  lemma CountsAreSound(counts: map<RecordType, int>, lines: seq<Line>)
    requires Grammar.CountsAgree(counts, lines) && AllPrintable(RecordsOf(lines))
    ensures FooterTrip.CountsSound(counts)
  {
    hide Grammar.TypeCount, Printable;
    NoFooterTypes(lines);
  }

  /** What the footer of a finished stream says can be printed. */
  lemma FooterReportable(lines: seq<Line>, header: Record, body: seq<Record>, totals: Totals, artifacts: (nat, nat),
                         counts: map<RecordType, int>)
    requires Reports(lines, header, body, totals, artifacts, counts) && AllPrintable([header] + body)
    requires Natural(totals.diagnostics) && Grammar.CountsAgree(counts, lines[..|lines| - 1])
    requires |RawOf(lines[..|lines| - 1])| < 0x2000_0000_0000_0000
    ensures Reportable(lines[|lines| - 1].record) && AllPrintable(RecordsOf(lines[..|lines| - 1]))
  {
    hide Printable, RawOf, Sha256Hex, Grammar.CountsAgree, RecordsOf, Utf8.Valid, FooterTrip.CountsSound;
    DigestPrintable(RawOf(lines[..|lines| - 1]));
    CountsAreSound(counts, lines[..|lines| - 1]);
  }

  lemma OctetsAgree(lines: seq<Line>, render: Rendering, header: Record, body: seq<Record>, totals: Totals,
                    artifacts: (nat, nat), counts: map<RecordType, int>, maximum: nat)
    requires lines != [] && Spelled(lines, render) && Expressive(render) && Grammar.Sequenced(lines)
    requires Reports(lines, header, body, totals, artifacts, counts) && AllPrintable([header] + body)
    requires Natural(totals.diagnostics) && Grammar.CountsAgree(counts, lines[..|lines| - 1])
    requires |RawOf(lines[..|lines| - 1])| < 0x2000_0000_0000_0000
    ensures AcceptsOctets(RawOf(lines), maximum) <==> Accepts(lines) && Fits(lines, maximum)
    ensures Fits(lines, maximum) ==> StreamFrom(RawOf(lines), maximum) == Some(lines)
    ensures AllLawful(lines)
  {
    hide Spelled, Expressive, Reports, Printable, RawOf, Grammar.CountsAgree, Grammar.Sequenced, Accepts, StreamFrom,
      Legible, Natural, Reportable, RecordsOf, AllPrintable, Fits, AllLawful;
    IsFooter(lines, render);
    FooterReportable(lines, header, body, totals, artifacts, counts);
    SpelledLegible(lines, render);
    StreamRead(lines, maximum);
    DigestReported(lines, header, body, totals, artifacts, counts);
    SpelledKeepSchema(lines, render);
  }

  lemma DigestReported(lines: seq<Line>, header: Record, body: seq<Record>, totals: Totals, artifacts: (nat, nat),
                       counts: map<RecordType, int>)
    requires Reports(lines, header, body, totals, artifacts, counts)
    requires |RawOf(lines[..|lines| - 1])| < 0x2000_0000_0000_0000
    ensures lines != [] && lines[|lines| - 1].record.Footer?
    ensures Schema.HexDigest(lines[|lines| - 1].record.streamSha256)
  {
    hide RawOf, RecordsOf, Sha256Hex, Schema.HexDigest;
    Schema.HexIsDigest(RawOf(lines[..|lines| - 1]));
  }

  lemma IsFooter(lines: seq<Line>, render: Rendering)
    requires Spelled(lines, render)
    ensures lines != [] && lines[|lines| - 1].record.Footer?
  {
    hide RenderedBy, FooterLine;
  }

  /** The stream is one that SHA-256 admits. */
  predicate Moderate(lines: seq<Line>)
  {
    lines != [] ==> |RawOf(lines[..|lines| - 1])| < 0x2000_0000_0000_0000
  }

  /** What holds of every rendering and every file system. */
  ghost predicate Given(op: Operation, render: Rendering, lines: seq<Line>)
  {
    Expressive(render) && Moderate(lines) && (op.ExtractModule? ==> Facts(op.m))
  }

  /** No line is too long and, for an extraction, the run was acceptable. */
  ghost predicate Passes(op: Operation, fault: Option<Fault>, lines: seq<Line>, outcome: Outcome, maximum: nat)
  {
    && Fits(lines, maximum)
    && (op.ExtractModule? ==> outcome.Extracted? && Acceptable(op.m, op.chunkSize, fault, outcome.course))
  }

  lemma ExtractionComes(op: Operation, render: Rendering, fault: Option<Fault>, lines: seq<Line>, outcome: Outcome)
    requires op.ExtractModule? && Comes(op, render, fault, lines, outcome) && Given(op, render, lines)
    ensures outcome.Extracted? && lines != [] && Spelled(lines, render) && Grammar.Sequenced(lines)
    ensures Expressive(render) && Facts(op.m)
    ensures Grammar.CountsAgree(outcome.counts, lines[..|lines| - 1])
    ensures |RawOf(lines[..|lines| - 1])| < 0x2000_0000_0000_0000
    ensures Possible(op.rootValid, op.m, op.chunkSize, fault, outcome.course)
    ensures Reports(lines, HeaderOf(op.chunkSize), BodyOf(op.m, op.chunkSize, outcome.course),
                    TotalsOf(op.m, op.chunkSize, fault, outcome.course),
                    ArtifactTotals(op.m, op.chunkSize, outcome.course), outcome.counts)
  {
    hide Spelled, Grammar.CountsAgree, RawOf, Possible, Reports, HeaderOf, BodyOf, TotalsOf, ArtifactTotals, Expressive,
      Facts;
  }

  lemma ExtractionPasses(op: Operation, fault: Option<Fault>, lines: seq<Line>, outcome: Outcome, maximum: nat)
    requires op.ExtractModule? && outcome.Extracted?
    ensures Passes(op, fault, lines, outcome, maximum) <==>
            Fits(lines, maximum) && Acceptable(op.m, op.chunkSize, fault, outcome.course)
  {
    hide Fits, Acceptable;
  }

  /** The octets of a finished extraction are accepted exactly when the run was acceptable and no line is too long. */
  lemma ExtractionOctetsAgree(op: Operation, render: Rendering, fault: Option<Fault>, lines: seq<Line>,
                              outcome: Outcome, maximum: nat)
    requires op.ExtractModule? && Comes(op, render, fault, lines, outcome) && Given(op, render, lines)
    ensures AcceptsOctets(RawOf(lines), maximum) <==> Passes(op, fault, lines, outcome, maximum)
    ensures AllLawful(lines)
  {
    hide *;
    ExtractionComes(op, render, fault, lines, outcome);
    ExtractionPasses(op, fault, lines, outcome, maximum);
    LinesAgree(lines, outcome.counts, op.rootValid, op.m, op.chunkSize, fault, outcome.course);
    ExtractionPrintable(op.rootValid, op.m, op.chunkSize, fault, outcome.course);
    TotalsNatural(op.rootValid, op.m, op.chunkSize, fault, outcome.course);
    OctetsAgree(lines, render, HeaderOf(op.chunkSize), BodyOf(op.m, op.chunkSize, outcome.course),
                TotalsOf(op.m, op.chunkSize, fault, outcome.course),
                ArtifactTotals(op.m, op.chunkSize, outcome.course), outcome.counts, maximum);
  }

  lemma ListingComes(op: Operation, render: Rendering, fault: Option<Fault>, lines: seq<Line>, outcome: Outcome)
    requires op.ListModules? && Comes(op, render, fault, lines, outcome) && Given(op, render, lines)
    ensures outcome.Listed? && lines != [] && Spelled(lines, render) && Grammar.Sequenced(lines) && Expressive(render)
    ensures Grammar.CountsAgree(outcome.counts, lines[..|lines| - 1])
    ensures |RawOf(lines[..|lines| - 1])| < 0x2000_0000_0000_0000
    ensures Reports(lines, LIST_HEADER, ListBody(op.rootValid, outcome.listed, outcome.caught),
                    Tally(NO_TOTALS, ListBody(op.rootValid, outcome.listed, outcome.caught)), (0, 0), outcome.counts)
  {
    hide Spelled, Grammar.CountsAgree, RawOf, Reports, ListBody, Tally, Expressive;
  }

  lemma ListingPasses(op: Operation, fault: Option<Fault>, lines: seq<Line>, outcome: Outcome, maximum: nat)
    requires op.ListModules?
    ensures Passes(op, fault, lines, outcome, maximum) <==> Fits(lines, maximum)
  {
    hide Fits;
  }

  /** The octets of a finished listing are accepted exactly when no line is too long. */
  lemma ListingOctetsAgree(op: Operation, render: Rendering, fault: Option<Fault>, lines: seq<Line>, outcome: Outcome,
                           maximum: nat)
    requires op.ListModules? && Comes(op, render, fault, lines, outcome) && Given(op, render, lines)
    ensures AcceptsOctets(RawOf(lines), maximum) <==> Passes(op, fault, lines, outcome, maximum)
    ensures AllLawful(lines)
  {
    hide *;
    ListingComes(op, render, fault, lines, outcome);
    ListingPasses(op, fault, lines, outcome, maximum);
    var body := ListBody(op.rootValid, outcome.listed, outcome.caught);
    ListLinesAgree(lines, outcome.counts, op.rootValid, outcome.listed, outcome.caught);
    ListingPrintable(op.rootValid, outcome.listed, outcome.caught);
    TallyNatural(NO_TOTALS, body) by { NoTotalsNatural(); }
    OctetsAgree(lines, render, LIST_HEADER, body, Tally(NO_TOTALS, body), (0, 0), outcome.counts, maximum);
  }

  /** The whole system: when a streaming call returns with a complete stream, the octets its callback has taken pass the
      validator exactly when no line is too long and, for an extraction, the run was acceptable. */
  lemma DeliveredOctetsAgree(op: Operation, render: Rendering, fault: Option<Fault>, lines: seq<Line>, outcome: Outcome,
                             status: Status, answers: nat -> CallbackStream.Answer, spans: seq<bytes>,
                             failure: CallbackStream.Failure, maximum: nat)
    requires status == Ok || status == ExtractionFailed
    requires Faithful(status, answers, spans, failure, lines)
    requires Comes(op, render, fault, lines, outcome) && Given(op, render, lines)
    ensures AcceptsOctets(CallbackStream.Accepted(spans, failure), maximum)
            <==> Passes(op, fault, lines, outcome, maximum)
    ensures AllLawful(lines)
  {
    hide *;
    TakenIs(status, answers, spans, failure, lines);
    if op.ExtractModule? {
      ExtractionOctetsAgree(op, render, fault, lines, outcome, maximum);
    } else {
      ListingOctetsAgree(op, render, fault, lines, outcome, maximum);
    }
  }

  lemma TakenIs(status: Status, answers: nat -> CallbackStream.Answer, spans: seq<bytes>,
                failure: CallbackStream.Failure, lines: seq<Line>)
    requires (status == Ok || status == ExtractionFailed) && Faithful(status, answers, spans, failure, lines)
    ensures CallbackStream.Accepted(spans, failure) == RawOf(lines)
  {
    hide CallbackStream.Accepted, CallbackStream.Orderly, RawOf, CompleteStream;
  }
}
