/** Records as JSON members: what the producer prints of a record, what the validator reads, and that both agree. */
module RecordCodec {
  import opened Bytes
  import opened Records
  import opened JsonText
  import opened JsonParse
  import opened JsonLines
  import opened ByteValue
  import opened RecordText
  import opened Writer
  import Annotation
  import Readback
  import Utf8

  const CONTRACT := "getbiblesword.ndjson/v1"
  const PRODUCER := "getBibleSword"

  /** Members beyond those that carry the record: projections, messages, classifications and the like. */
  datatype Extras = Extras(fields: JsonFields, values: map<bytes, Json>)

  // What is printed.

  function ScopeParts(scope: Scope): seq<Part>
  {
    match scope
    case SwordKey(index) => [NumberPart("index", index), TextPart("type", Text("sword_key"))]
    case VerseKey(index, testament, book, chapter, verse, suffix) =>
      [NumberPart("book", book), NumberPart("chapter", chapter), NumberPart("index", index),
       NumberPart("suffix", suffix), NumberPart("testament", testament), TextPart("type", Text("verse_key")),
       NumberPart("verse", verse)]
  }

  function ScopePart(scope: Scope, more: Extras): Part
  {
    Part("scope", ObjectText(more.fields + PartFields(ScopeParts(scope))),
         ObjectOf(more.values + PartValues(ScopeParts(scope))))
  }

  function CommandName(c: Command): string { if c == List then "list" else "extract" }

  function SeverityName(s: Severity): string
  {
    match s
    case Info => "info"
    case Warning => "warning"
    case Error => "error"
  }

  function FileTypeName(t: FileType): string
  {
    match t
    case Regular => "regular"
    case Directory => "directory"
    case Symlink => "symlink"
  }

  function HeaderParts(command: Command, chunkSize: Option<int>): seq<Part>
  {
    [TextPart("command", Text(CommandName(command))), TextPart("contract", Text(CONTRACT)),
     NumberPart("contract_version", 1), FlagPart("deterministic", true), TextPart("producer", Text(PRODUCER))]
    + if chunkSize.Some? then [NumberPart("artifact_chunk_size", chunkSize.value)] else []
  }

  function EntryParts(e: EntryData, scope: Extras): seq<Part>
  {
    [SegmentsPart(e.segments),
     BytesPart("key", e.key), OptionalPart("normalized_raw", e.normalizedRaw),
     OptionalPart("normalized_stripped", e.normalizedStripped), NumberPart("ordinal", e.ordinal),
     FlagPart("projections_available", e.projections.Some?), BytesPart("raw", e.raw),
     OptionalPart("rendered_default", if e.projections.Some? then Some(e.projections.value.rendered) else None),
     OptionalPart("stripped", if e.projections.Some? then Some(e.projections.value.stripped) else None),
     ScopePart(e.scope, scope)]
  }

  function BeginParts(r: Record): seq<Part>
    requires r.ArtifactBegin?
  {
    [NumberPart("artifact_id", r.id), TextPart("file_type", Text(FileTypeName(r.fileType))), NumberPart("mode", r.mode),
     BytesPart("path", r.path), TextPart("role", r.role)]
    + (if r.target.Some? then [BytesPart("target", r.target.value)] else [])
    + (if r.sizeExpected.Some? then [NumberPart("size_expected", r.sizeExpected.value)] else [])
  }

  function EndParts(r: Record): seq<Part>
    requires r.ArtifactEnd?
  {
    [NumberPart("artifact_id", r.id), TextPart("sha256", r.sha256), NumberPart("size", r.size)]
    + if r.stable.Some? then [FlagPart("stable", r.stable.value)] else []
  }

  /** The parts that carry a record; those of the footer are the writer's business. */
  function PartsOf(r: Record, scope: Extras): seq<Part>
  {
    match r
    case Header(command, chunkSize) => HeaderParts(command, chunkSize)
    case Module => []
    case ConfigSource(ordinal, path, raw) => [NumberPart("ordinal", ordinal), BytesPart("path", path),
                                              BytesPart("raw", raw)]
    case ConfigEntry(ordinal, name, value) =>
      [BytesPart("name", name), NumberPart("ordinal", ordinal), BytesPart("value", value)]
    case Entry(e) => EntryParts(e, scope)
    case ArtifactBegin(_, _, _, _, _, _, _) => BeginParts(r)
    case ArtifactChunk(id, index, data) => [NumberPart("artifact_id", id), BytesPart("data", data),
                                            NumberPart("index", index)]
    case ArtifactEnd(_, _, _, _) => EndParts(r)
    case Diagnostic(severity, code) => [TextPart("code", code), TextPart("severity", Text(SeverityName(severity)))]
    case Footer(_, _, _, _, _, _, _) => []
  }

  /** What the producer can print: texts in UTF-8, and optional members exactly where the kind of record has them. */
  predicate Printable(r: Record)
  {
    match r
    case Header(command, chunkSize) => chunkSize.Some? ==> command == Extract
    case ArtifactBegin(_, fileType, _, _, role, target, sizeExpected) =>
      Utf8.Valid(role) && (target.Some? <==> fileType == Symlink) && (sizeExpected.Some? <==> fileType == Regular)
    case ArtifactEnd(_, sha256, _, _) => Utf8.Valid(sha256)
    case Diagnostic(_, code) => Utf8.Valid(code)
    case Footer(_, _, _, _, _, _, _) => false
    case _ => true
  }

  ghost predicate Proper(x: Extras)
  {
    AllPrinted(x.fields, x.values)
  }

  /** Extra members do not pretend to be optional ones. */
  predicate Harmless(r: Record, x: Extras)
  {
    && (r.Header? ==> Text("artifact_chunk_size") !in x.values)
    && (r.ArtifactBegin? ==> Text("target") !in x.values && Text("size_expected") !in x.values)
    && (r.ArtifactEnd? ==> Text("stable") !in x.values)
  }

  function RecordFields(r: Record, x: Extras, scope: Extras): JsonFields
  {
    x.fields + PartFields(PartsOf(r, scope))
  }

  function RecordValues(r: Record, x: Extras, scope: Extras): map<bytes, Json>
  {
    x.values + PartValues(PartsOf(r, scope))
  }

  // Every part is printed.

  lemma ScopePrinted(scope: Scope, more: Extras)
    requires Proper(more)
    ensures Good(ScopePart(scope, more))
  {
    hide Printed, Utf8.Valid, AllPrinted, ObjectText, ObjectOf, PartFields, PartValues, ScopeParts;
    ScopePartsPrinted(scope);
    PartsPrinted(ScopeParts(scope));
    Merged(more.fields, more.values, PartFields(ScopeParts(scope)), PartValues(ScopeParts(scope)));
    ObjectPrinted(more.fields + PartFields(ScopeParts(scope)), more.values + PartValues(ScopeParts(scope)));
  }

  lemma Merged(a: JsonFields, v: map<bytes, Json>, b: JsonFields, w: map<bytes, Json>)
    requires AllPrinted(a, v) && AllPrinted(b, w)
    ensures AllPrinted(a + b, v + w)
  {
    hide Printed, Utf8.Valid;
  }

  lemma ScopePartsPrinted(scope: Scope)
    ensures WellPrinted(ScopeParts(scope))
  {
    hide Good, NumberPart, TextPart, Text;
    var parts := ScopeParts(scope);
    if scope.SwordKey? {
      NumberGood("index", scope.index);
      LiteralGood("type", "sword_key");
    } else {
      NumberGood("book", scope.book);
      NumberGood("chapter", scope.chapter);
      NumberGood("index", scope.index);
      NumberGood("suffix", scope.suffix);
      NumberGood("testament", scope.testament);
      LiteralGood("type", "verse_key");
      NumberGood("verse", scope.verse);
    }
  }

  lemma ContractGood()
    ensures Good(TextPart("contract", Text(CONTRACT))) && Good(TextPart("producer", Text(PRODUCER)))
  {
    hide Good, TextPart, Text;
    LiteralGood("contract", CONTRACT);
    LiteralGood("producer", PRODUCER);
  }

  lemma VersionGood(command: Command)
    ensures Good(TextPart("command", Text(CommandName(command)))) && Good(NumberPart("contract_version", 1))
    ensures Good(FlagPart("deterministic", true))
  {
    hide Good, TextPart, NumberPart, FlagPart, Text;
    LiteralGood("command", CommandName(command));
    NumberGood("contract_version", 1);
    FlagGood("deterministic", true);
  }

  lemma HeaderPrinted(command: Command, chunkSize: Option<int>)
    ensures WellPrinted(HeaderParts(command, chunkSize))
  {
    hide Good, NumberPart, TextPart, FlagPart, Text, CommandName;
    ContractGood();
    VersionGood(command);
    if chunkSize.Some? {
      NumberGood("artifact_chunk_size", chunkSize.value);
    }
  }

  function SegmentsPart(segments: seq<Annotation.Segment>): Part
  {
    Part("annotation_segments", ArrayText(SegmentTexts(segments)), Array(SegmentValues(segments)))
  }

  lemma SegmentsGood(segments: seq<Annotation.Segment>)
    ensures Good(SegmentsPart(segments))
  {
    hide Printed, SegmentTexts, SegmentValues, ArrayText;
    SegmentsPrinted(segments);
  }

  lemma EntryPrinted(e: EntryData, scope: Extras)
    requires Proper(scope)
    ensures WellPrinted(EntryParts(e, scope))
  {
    hide Good, NumberPart, TextPart, FlagPart, BytesPart, OptionalPart, Text, SegmentsPart,
      ScopePart, Proper;
    SegmentsGood(e.segments);
    BytesGood("key", e.key);
    OptionalGood("normalized_raw", e.normalizedRaw);
    OptionalGood("normalized_stripped", e.normalizedStripped);
    NumberGood("ordinal", e.ordinal);
    FlagGood("projections_available", e.projections.Some?);
    BytesGood("raw", e.raw);
    OptionalGood("rendered_default", if e.projections.Some? then Some(e.projections.value.rendered) else None);
    OptionalGood("stripped", if e.projections.Some? then Some(e.projections.value.stripped) else None);
    ScopePrinted(e.scope, scope);
  }

  lemma BeginPrinted(r: Record)
    requires r.ArtifactBegin? && Utf8.Valid(r.role)
    ensures WellPrinted(BeginParts(r))
  {
    hide Good, NumberPart, TextPart, BytesPart, Text, Utf8.Valid;
    NumberGood("artifact_id", r.id);
    LiteralGood("file_type", FileTypeName(r.fileType));
    NumberGood("mode", r.mode);
    BytesGood("path", r.path);
    TextGood("role", r.role);
    if r.target.Some? {
      BytesGood("target", r.target.value);
    }
    if r.sizeExpected.Some? {
      NumberGood("size_expected", r.sizeExpected.value);
    }
  }

  lemma EndPrinted(r: Record)
    requires r.ArtifactEnd? && Utf8.Valid(r.sha256)
    ensures WellPrinted(EndParts(r))
  {
    hide Good, NumberPart, TextPart, FlagPart, Text, Utf8.Valid;
    NumberGood("artifact_id", r.id);
    TextGood("sha256", r.sha256);
    NumberGood("size", r.size);
    if r.stable.Some? {
      FlagGood("stable", r.stable.value);
    }
  }

  lemma ConfigurationPrinted(r: Record, scope: Extras)
    requires r.ConfigSource? || r.ConfigEntry?
    ensures WellPrinted(PartsOf(r, scope))
  {
    hide Good, NumberPart, BytesPart, HeaderParts, EntryParts, BeginParts, EndParts;
    NumberGood("ordinal", r.ordinal);
    if r.ConfigSource? {
      BytesGood("path", r.path);
      BytesGood("raw", r.raw);
    } else {
      BytesGood("name", r.name);
      BytesGood("value", r.value);
    }
  }

  lemma ChunkPrinted(r: Record, scope: Extras)
    requires r.ArtifactChunk?
    ensures WellPrinted(PartsOf(r, scope))
  {
    hide Good, NumberPart, BytesPart, HeaderParts, EntryParts, BeginParts, EndParts;
    NumberGood("artifact_id", r.id);
    BytesGood("data", r.data);
    NumberGood("index", r.index);
  }

  lemma DiagnosticPrinted(r: Record, scope: Extras)
    requires r.Diagnostic? && Utf8.Valid(r.code)
    ensures WellPrinted(PartsOf(r, scope))
  {
    hide Good, TextPart, Text, Utf8.Valid, HeaderParts, EntryParts, BeginParts, EndParts;
    TextGood("code", r.code);
    LiteralGood("severity", SeverityName(r.severity));
  }

  /** All parts of a printable record are printed. */
  lemma RecordPrinted(r: Record, scope: Extras)
    requires Printable(r) && Proper(scope)
    ensures WellPrinted(PartsOf(r, scope))
  {
    hide Good, Utf8.Valid, HeaderParts, EntryParts, BeginParts, EndParts, Proper, NumberPart, TextPart, BytesPart, Text;
    match r
    case Header(command, chunkSize) => HeaderPrinted(command, chunkSize);
    case Module =>
    case Entry(e) => EntryPrinted(e, scope);
    case ArtifactBegin(_, _, _, _, _, _, _) => BeginPrinted(r);
    case ArtifactEnd(_, _, _, _) => EndPrinted(r);
    case ConfigSource(_, _, _) => ConfigurationPrinted(r, scope);
    case ConfigEntry(_, _, _) => ConfigurationPrinted(r, scope);
    case ArtifactChunk(_, _, _) => ChunkPrinted(r, scope);
    case Diagnostic(_, _) => DiagnosticPrinted(r, scope);
  }

  // Their names.

  lemma HeaderNames(command: Command, chunkSize: Option<int>)
    ensures PartNames(HeaderParts(command, chunkSize)) ==
            ["command", "contract", "contract_version", "deterministic", "producer"]
            + if chunkSize.Some? then ["artifact_chunk_size"] else []
  {
    hide Signed, JsonString, Text, Readback.Word;
  }

  lemma EntryNames(e: EntryData, scope: Extras)
    ensures PartNames(EntryParts(e, scope)) ==
            ["annotation_segments", "key", "normalized_raw", "normalized_stripped", "ordinal", "projections_available",
             "raw", "rendered_default", "stripped", "scope"]
  {
    hide Signed, JsonString, Text, Readback.Word, EnvelopeText, OptionalText, OptionalValue, SegmentTexts,
      SegmentValues, ArrayText, ObjectText, ObjectOf, PartFields, PartValues, ScopeParts, Envelope;
  }

  lemma BeginNames(r: Record)
    requires r.ArtifactBegin?
    ensures PartNames(BeginParts(r)) ==
            ["artifact_id", "file_type", "mode", "path", "role"]
            + (if r.target.Some? then ["target"] else []) + (if r.sizeExpected.Some? then ["size_expected"] else [])
  {
    hide Signed, JsonString, Text, EnvelopeText, Envelope;
  }

  lemma EndNames(r: Record)
    requires r.ArtifactEnd?
    ensures PartNames(EndParts(r)) == ["artifact_id", "sha256", "size"] + if r.stable.Some? then ["stable"] else []
  {
    hide Signed, JsonString, Text, Readback.Word;
  }
}
