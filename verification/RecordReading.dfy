/** What the validator reads from the members of a record. Bounds and order are checked later, by the steps. */
module RecordReading {
  import opened Bytes
  import opened Records
  import opened JsonText
  import opened JsonParse
  import opened ByteValue
  import opened RecordCodec
  import Annotation
  import RecordText
  import Writer

  function Get(members: seq<Member>, name: string): Option<Json>
  {
    Lookup(members, Text(name))
  }

  function Number(v: Option<Json>): Option<int>
  {
    if v.Some? && v.value.Integer? then Some(v.value.n) else None
  }

  function Flag(v: Option<Json>): Option<bool>
  {
    if v.Some? && v.value.Bool? then Some(v.value.b) else None
  }

  function String(v: Option<Json>): Option<bytes>
  {
    if v.Some? && v.value.Str? then Some(v.value.text) else None
  }

  function ByteString(v: Option<Json>): Option<bytes>
  {
    if v.None? then None else DecodeByteValue(v.value)
  }

  /** A byte value that may be null or absent. */
  function MaybeBytes(v: Option<Json>): Option<Option<bytes>>
  {
    if v.None? || v.value == Null then Some(None)
    else
      var b := DecodeByteValue(v.value);
      if b.None? then None else Some(b)
  }

  function HeaderFrom(m: seq<Member>): Option<Record>
  {
    if Get(m, "contract") != Some(Str(Text(CONTRACT))) || Get(m, "contract_version") != Some(Integer(1)) then None
    else if Get(m, "producer") != Some(Str(Text(PRODUCER))) || Get(m, "deterministic") != Some(Bool(true)) then None
    else if Get(m, "command") == Some(Str(Text("list"))) then Some(Header(List, None))
    else if Get(m, "command") == Some(Str(Text("extract"))) then
      Some(Header(Extract, Number(Get(m, "artifact_chunk_size"))))
    else None
  }

  function ConfigSourceFrom(m: seq<Member>): Option<Record>
  {
    var ordinal, path, raw := Number(Get(m, "ordinal")), ByteString(Get(m, "path")), ByteString(Get(m, "raw"));
    if ordinal.None? || path.None? || raw.None? then None else Some(ConfigSource(ordinal.value, path.value, raw.value))
  }

  function ConfigEntryFrom(m: seq<Member>): Option<Record>
  {
    var name, ordinal, value := ByteString(Get(m, "name")), Number(Get(m, "ordinal")), ByteString(Get(m, "value"));
    if name.None? || ordinal.None? || value.None? then None
      else Some(ConfigEntry(ordinal.value, name.value, value.value))
  }

  function KindFrom(v: Option<Json>): Option<Annotation.Kind>
  {
    if v == Some(Str(Text("text"))) then Some(Annotation.Kind.Text)
    else if v == Some(Str(Text("markup"))) then Some(Annotation.Markup)
    else if v == Some(Str(Text("entity"))) then Some(Annotation.Entity)
    else None
  }

  function SegmentFrom(j: Json): Option<Annotation.Segment>
  {
    if !j.Object? then None
    else
      var kind, raw := KindFrom(Get(j.members, "kind")), ByteString(Get(j.members, "raw"));
      if kind.None? || raw.None? then None
      else if Get(j.members, "interpretation") != Some(Str(Text(RecordText.Interpretation(kind.value)))) then None
      else Some(Annotation.Segment(kind.value, raw.value))
  }

  function SegmentsFrom(items: seq<Json>): (r: Option<seq<Annotation.Segment>>)
  {
    if items == [] then Some([])
    else
      var before, last := SegmentsFrom(items[..|items| - 1]), SegmentFrom(items[|items| - 1]);
      if before.None? || last.None? then None else Some(before.value + [last.value])
  }

  function ScopeFrom(v: Option<Json>): Option<Scope>
  {
    if v.None? || !v.value.Object? then None
    else
      var m := v.value.members;
      var index := Number(Get(m, "index"));
      if index.None? then None
      else if Get(m, "type") == Some(Str(Text("sword_key"))) then Some(SwordKey(index.value))
      else if Get(m, "type") != Some(Str(Text("verse_key"))) then None
      else
        var book, chapter, testament := Number(Get(m, "book")), Number(Get(m, "chapter")), Number(Get(m, "testament"));
        var verse, suffix := Number(Get(m, "verse")), Number(Get(m, "suffix"));
        if book.None? || chapter.None? || testament.None? || verse.None? || suffix.None? then None
        else Some(VerseKey(index.value, testament.value, book.value, chapter.value, verse.value, suffix.value))
  }

  /** Both projections when they are announced, and null in their places otherwise. */
  function ProjectionsFrom(m: seq<Member>): Option<Option<Projections>>
  {
    var flag, rendered, stripped := Flag(Get(m, "projections_available")), Get(m, "rendered_default"),
      Get(m, "stripped");
    if flag.None? || rendered.None? || stripped.None? then None
    else if flag.value then
      var a, b := ByteString(rendered), ByteString(stripped);
      if a.None? || b.None? then None else Some(Some(Projections(a.value, b.value)))
    else if rendered.value == Null && stripped.value == Null then Some(None)
    else None
  }

  function EntryFrom(m: seq<Member>): Option<Record>
  {
    var ordinal, key, raw := Number(Get(m, "ordinal")), ByteString(Get(m, "key")), ByteString(Get(m, "raw"));
    var normalized, stripped := MaybeBytes(Get(m, "normalized_raw")), MaybeBytes(Get(m, "normalized_stripped"));
    var projections, scope, items := ProjectionsFrom(m), ScopeFrom(Get(m, "scope")), Get(m, "annotation_segments");
    if ordinal.None? || key.None? || raw.None? || normalized.None? || stripped.None? || projections.None? then None
    else if scope.None? || items.None? || !items.value.Array? then None
    else
      var segments := SegmentsFrom(items.value.items);
      if segments.None? then None
      else Some(Entry(EntryData(ordinal.value, key.value, raw.value, segments.value, normalized.value, stripped.value,
                                projections.value, scope.value)))
  }

  function FileTypeFrom(v: Option<Json>): Option<FileType>
  {
    if v == Some(Str(Text("regular"))) then Some(Regular)
    else if v == Some(Str(Text("directory"))) then Some(Directory)
    else if v == Some(Str(Text("symlink"))) then Some(Symlink)
    else None
  }

  /** The expected size is read of files only, the target of links only. */
  function BeginFrom(m: seq<Member>): Option<Record>
  {
    var id, fileType, mode := Number(Get(m, "artifact_id")), FileTypeFrom(Get(m, "file_type")), Number(Get(m, "mode"));
    var path, role := ByteString(Get(m, "path")), String(Get(m, "role"));
    if id.None? || fileType.None? || mode.None? || path.None? || role.None? then None
    else
      var target := if fileType.value == Symlink then ByteString(Get(m, "target")) else None;
      var expected := if fileType.value == Regular then Number(Get(m, "size_expected")) else None;
      Some(ArtifactBegin(id.value, fileType.value, mode.value, path.value, role.value, target, expected))
  }

  function ChunkFrom(m: seq<Member>): Option<Record>
  {
    var id, data, index := Number(Get(m, "artifact_id")), ByteString(Get(m, "data")), Number(Get(m, "index"));
    if id.None? || data.None? || index.None? then None else Some(ArtifactChunk(id.value, index.value, data.value))
  }

  function EndFrom(m: seq<Member>): Option<Record>
  {
    var id, digest, size := Number(Get(m, "artifact_id")), String(Get(m, "sha256")), Number(Get(m, "size"));
    if id.None? || digest.None? || size.None? then None
    else Some(ArtifactEnd(id.value, digest.value, size.value, Flag(Get(m, "stable"))))
  }

  function SeverityFrom(v: Option<Json>): Option<Severity>
  {
    if v == Some(Str(Text("info"))) then Some(Info)
    else if v == Some(Str(Text("warning"))) then Some(Warning)
    else if v == Some(Str(Text("error"))) then Some(Error)
    else None
  }

  function DiagnosticFrom(m: seq<Member>): Option<Record>
  {
    var code, severity := String(Get(m, "code")), SeverityFrom(Get(m, "severity"));
    if code.None? || severity.None? then None else Some(Diagnostic(severity.value, code.value))
  }

  /** The record type of a name, among the first `n`. */
  function TypeFrom(name: bytes, n: nat): Option<RecordType>
    requires n <= 10
  {
    if n == 0 then None
    else if Writer.TypeName(Writer.TypeAt(n - 1)) == name then Some(Writer.TypeAt(n - 1))
    else TypeFrom(name, n - 1)
  }

  /** Tallies: every name is that of a record type other than the footer, every value a number. */
  function CountsFrom(m: seq<Member>): Option<map<RecordType, int>>
  {
    if m == [] then Some(map[])
    else
      var last := m[|m| - 1];
      var before, t := CountsFrom(m[..|m| - 1]), TypeFrom(last.name, 10);
      if before.None? || t.None? || t.value == FooterType || !last.value.Integer? then None
      else Some(before.value[t.value := last.value.n])
  }

  predicate SeveritiesOnly(m: seq<Member>)
  {
    forall i :: 0 <= i < |m| ==> m[i].name == Text("error") || m[i].name == Text("info") || m[i].name == Text("warning")
  }

  /** Exactly the three severities. */
  function DiagnosticsFrom(v: Option<Json>): Option<DiagnosticCounts>
  {
    if v.None? || !v.value.Object? || !SeveritiesOnly(v.value.members) then None
    else
      var m := v.value.members;
      var info, warning, error := Number(Get(m, "info")), Number(Get(m, "warning")), Number(Get(m, "error"));
      if info.None? || warning.None? || error.None? then None
      else Some(DiagnosticCounts(info.value, warning.value, error.value))
  }

  function FooterFrom(m: seq<Member>): Option<Record>
  {
    var size, artifacts, entries := Number(Get(m, "artifact_bytes")), Number(Get(m, "artifacts")),
      Number(Get(m, "entries"));
    var digest, success := String(Get(m, "stream_sha256")), Flag(Get(m, "success"));
    var counts, diagnostics := Get(m, "counts"), DiagnosticsFrom(Get(m, "diagnostics"));
    if size.None? || artifacts.None? || entries.None? || digest.None? || success.None? || diagnostics.None? then None
    else if counts.None? || !counts.value.Object? then None
    else
      var tallies := CountsFrom(counts.value.members);
      if tallies.None? then None
      else Some(Footer(size.value, artifacts.value, tallies.value, diagnostics.value, entries.value, digest.value,
                       success.value))
  }

  function RecordFrom(t: RecordType, m: seq<Member>): Option<Record>
  {
    match t
    case HeaderType => HeaderFrom(m)
    case ModuleType => Some(Module)
    case ConfigSourceType => ConfigSourceFrom(m)
    case ConfigEntryType => ConfigEntryFrom(m)
    case EntryType => EntryFrom(m)
    case ArtifactBeginType => BeginFrom(m)
    case ArtifactChunkType => ChunkFrom(m)
    case ArtifactEndType => EndFrom(m)
    case DiagnosticType => DiagnosticFrom(m)
    case FooterType => FooterFrom(m)
  }

  // What is only checked.

  predicate IsBytes(v: Option<Json>)
  {
    ByteString(v).Some?
  }

  predicate IsBytesOrNull(v: Option<Json>)
  {
    v.Some? && (v.value == Null || IsBytes(v))
  }

  predicate HeaderShape(m: seq<Member>)
  {
    String(Get(m, "producer_version")).Some? && String(Get(m, "sword_version")).Some?
  }

  predicate IsClassification(v: Option<Json>)
  {
    || v == Some(Str(Text("bible"))) || v == Some(Str(Text("commentary")))
       || v == Some(Str(Text("dictionary_or_lexicon")))
    || v == Some(Str(Text("general_book"))) || v == Some(Str(Text("devotional"))) || v == Some(Str(Text("resource")))
    || v == Some(Str(Text("unknown")))
  }

  /** `validate_enum`. */
  predicate IsEnum(v: Option<Json>)
  {
    v.Some? && v.value.Object?
    && var code := Number(Get(v.value.members, "code"));
       code.Some? && 0 <= code.value <= 255 && String(Get(v.value.members, "name")).Some?
  }

  predicate ModuleShape(m: seq<Member>)
  {
    && IsClassification(Get(m, "classification"))
    && IsBytes(Get(m, "description")) && IsBytes(Get(m, "driver")) && IsBytes(Get(m, "language"))
    && IsBytes(Get(m, "name")) && IsBytes(Get(m, "sword_type"))
    && IsEnum(Get(m, "direction")) && IsEnum(Get(m, "encoding")) && IsEnum(Get(m, "markup"))
  }

  predicate AttributeShape(j: Json)
  {
    j.Object? && IsBytes(Get(j.members, "name")) && IsBytes(Get(j.members, "value"))
  }

  predicate AttributeListShape(j: Json)
  {
    j.Object? && IsBytes(Get(j.members, "name"))
    && var values := Get(j.members, "values");
       values.Some? && values.value.Array? && forall v :: v in values.value.items ==> AttributeShape(v)
  }

  predicate AttributeTypeShape(j: Json)
  {
    j.Object? && IsBytes(Get(j.members, "name"))
    && var lists := Get(j.members, "lists");
       lists.Some? && lists.value.Array? && forall l :: l in lists.value.items ==> AttributeListShape(l)
  }

  /** `_validate_official_attributes`. */
  predicate AttributesShape(v: Option<Json>)
  {
    v.Some? && v.value.Array? && forall t :: t in v.value.items ==> AttributeTypeShape(t)
  }

  predicate IsIntroScope(v: Option<Json>)
  {
    || v == Some(Str(Text("module"))) || v == Some(Str(Text("testament"))) || v == Some(Str(Text("book")))
    || v == Some(Str(Text("chapter"))) || v == Some(Str(Text("verse")))
  }

  /** The names in a scope that is a verse. */
  predicate ScopeShape(v: Option<Json>)
  {
    v.Some? && v.value.Object?
    && var m := v.value.members;
       Get(m, "type") == Some(Str(Text("verse_key"))) ==>
         && IsIntroScope(Get(m, "intro_scope"))
         && IsBytesOrNull(Get(m, "book_abbreviation")) && IsBytesOrNull(Get(m, "book_name"))
         && IsBytes(Get(m, "osis_reference")) && IsBytes(Get(m, "versification"))
  }

  /** `validate_embedded_byte_values`: whatever looks like a byte value, at any depth, is one. */
  predicate Embedded(j: Json)
  {
    match j
    case Object(members) =>
      if Get(members, "base64").Some? || Get(members, "encoding") == Some(Str(Text("base64")))
      then DecodeByteValue(j).Some?
      else forall i :: 0 <= i < |members| ==> Embedded(members[i].value)
    case Array(items) => forall i :: 0 <= i < |items| ==> Embedded(items[i])
    case _ => true
  }

  /** The checks whose outcome nothing else depends on. */
  predicate Shaped(t: RecordType, m: seq<Member>)
  {
    match t
    case FooterType => true
    case HeaderType => HeaderShape(m) && Embedded(Object(m))
    case ModuleType => ModuleShape(m) && Embedded(Object(m))
    case EntryType => AttributesShape(Get(m, "official_attributes")) && ScopeShape(Get(m, "scope"))
      && Embedded(Object(m))
    case DiagnosticType => IsBytes(Get(m, "message")) && Embedded(Object(m))
    case _ => Embedded(Object(m))
  }

  /** One line without its terminator: an object with a known type, a number and what its type demands. */
  function LineFrom(text: bytes): (r: Option<Line>)
  {
    var j := ParseText(text);
    if j.None? || !j.value.Object? then None
    else
      var m := j.value.members;
      var name, sequence := String(Get(m, "type")), Number(Get(m, "sequence"));
      if name.None? || sequence.None? then None
      else
        var t := TypeFrom(name.value, 10);
        if t.None? || !Shaped(t.value, m) then None
        else
          var record := RecordFrom(t.value, m);
          if record.None? then None else Some(Line(text + [LF], sequence.value, record.value))
  }
}
