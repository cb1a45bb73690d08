/** The published schema of a record, and which member of a line says what: what holds of every line that is read. */
module Schema {
  import opened Bytes
  import opened ByteValue
  import opened JsonObjects
  import opened JsonParse
  import opened JsonText
  import opened RecordReading
  import opened Records
  import opened Sha256Spec
  import Annotation
  import Base64
  import Utf8
  import Writer

  // The schema.

  predicate Has(m: seq<Member>, name: string, value: Json)
  {
    Member(Text(name), value) in m
  }

  predicate Required(m: seq<Member>, name: string)
  {
    Named(m, Text(name))
  }

  /** Sixty-four hexadecimal digits in lower case. */
  predicate HexDigest(b: bytes)
  {
    |b| == 64 && forall i :: 0 <= i < 64 ==> 0x30 <= b[i] <= 0x39 || 0x61 <= b[i] <= 0x66
  }

  /** The members a byte value may have. */
  predicate ByteMember(x: Member)
  {
    || (x.name == Text("base64") && x.value.Str?)
    || (x.name == Text("encoding") && x.value == Str(Text("base64")))
    || (x.name == Text("sha256") && x.value.Str? && HexDigest(x.value.text))
    || (x.name == Text("size") && x.value.Integer? && x.value.n >= 0)
    || (x.name == Text("utf8") && x.value.Str?)
  }

  predicate IsByteValue(j: Json)
  {
    j.Object?
    && Required(j.members, "base64") && Required(j.members, "encoding") && Required(j.members, "sha256")
    && Required(j.members, "size") && forall i :: 0 <= i < |j.members| ==> ByteMember(j.members[i])
  }

  /** What stands under the name, if anything does, is a byte value. */
  predicate BytesUnder(m: seq<Member>, name: string)
  {
    forall i :: 0 <= i < |m| && m[i].name == Text(name) ==> IsByteValue(m[i].value)
  }

  predicate BytesOrNullUnder(m: seq<Member>, name: string)
  {
    forall i :: 0 <= i < |m| && m[i].name == Text(name) ==> m[i].value == Null || IsByteValue(m[i].value)
  }

  /** What every record has: a number and the name of its type. */
  ghost predicate Base(m: seq<Member>, name: string)
  {
    Has(m, "type", Str(Text(name))) && exists n: nat :: Has(m, "sequence", Integer(n))
  }

  ghost predicate HeaderConforms(m: seq<Member>)
  {
    && Base(m, "header") && Required(m, "command") && Has(m, "contract", Str(Text("getbiblesword.ndjson/v1")))
    && Has(m, "contract_version", Integer(1)) && Required(m, "producer") && Required(m, "producer_version")
    && Required(m, "sword_version")
  }

  ghost predicate ModuleConforms(m: seq<Member>)
  {
    && Base(m, "module") && Required(m, "classification") && Required(m, "driver") && Required(m, "name")
    && Required(m, "sword_type")
  }

  ghost predicate ConfigSourceConforms(m: seq<Member>)
  {
    && Base(m, "config_source") && Required(m, "ordinal") && Required(m, "path") && Required(m, "raw")
    && BytesUnder(m, "path") && BytesUnder(m, "raw")
  }

  ghost predicate ConfigEntryConforms(m: seq<Member>)
  {
    Base(m, "config_entry") && Required(m, "name") && Required(m, "ordinal") && Required(m, "value")
  }

  ghost predicate EntryConforms(m: seq<Member>)
  {
    && Base(m, "entry") && Required(m, "annotation_segments") && Required(m, "key")
    && Required(m, "official_attributes") && Required(m, "ordinal") && Required(m, "raw") && Required(m, "scope")
    && BytesUnder(m, "key") && BytesUnder(m, "raw")
    && BytesOrNullUnder(m, "normalized_raw") && BytesOrNullUnder(m, "normalized_stripped")
  }

  ghost predicate BeginConforms(m: seq<Member>)
  {
    && Base(m, "artifact_begin") && Required(m, "artifact_id") && Required(m, "file_type") && Required(m, "mode")
    && Required(m, "path") && Required(m, "role")
  }

  ghost predicate ChunkConforms(m: seq<Member>)
  {
    && Base(m, "artifact_chunk") && Required(m, "artifact_id") && Required(m, "data") && Required(m, "index")
    && BytesUnder(m, "data")
  }

  ghost predicate EndConforms(m: seq<Member>)
  {
    Base(m, "artifact_end") && Required(m, "artifact_id") && Required(m, "sha256") && Required(m, "size")
  }

  ghost predicate DiagnosticConforms(m: seq<Member>)
  {
    && Base(m, "diagnostic") && Required(m, "code") && Required(m, "message")
    && (Has(m, "severity", Str(Text("info"))) || Has(m, "severity", Str(Text("warning")))
        || Has(m, "severity", Str(Text("error"))))
  }

  ghost predicate FooterConforms(m: seq<Member>)
  {
    && Base(m, "footer") && Required(m, "counts")
    && (exists digest :: HexDigest(digest) && Has(m, "stream_sha256", Str(digest)))
    && (Has(m, "success", Bool(true)) || Has(m, "success", Bool(false)))
  }

  /** One of the ten kinds of record, no name twice. */
  ghost predicate Conforms(m: seq<Member>)
  {
    DistinctNames(m)
    && (|| HeaderConforms(m) || ModuleConforms(m) || ConfigSourceConforms(m) || ConfigEntryConforms(m)
        || EntryConforms(m) || BeginConforms(m) || ChunkConforms(m) || EndConforms(m) || DiagnosticConforms(m)
        || FooterConforms(m))
  }

  // Which member says what.

  /** Under the name stands an envelope of these octets. */
  predicate HasBytes(m: seq<Member>, name: string, b: bytes)
  {
    exists i :: 0 <= i < |m| && m[i].name == Text(name) && m[i].value.Object?
                && HasRequired(m[i].value.members, b) && OnlyEnvelope(m[i].value.members, b)
  }

  predicate HasBytesOrNot(m: seq<Member>, name: string, b: Option<bytes>)
  {
    if b.Some? then HasBytes(m, name, b.value) else Has(m, name, Null) || !Required(m, name)
  }

  predicate SaysScope(m: seq<Member>, scope: Scope)
  {
    exists i :: 0 <= i < |m| && m[i].name == Text("scope") && m[i].value.Object? && SaysPlace(m[i].value.members, scope)
  }

  predicate SaysPlace(m: seq<Member>, scope: Scope)
  {
    match scope
    case SwordKey(index) => Has(m, "type", Str(Text("sword_key"))) && Has(m, "index", Integer(index))
    case VerseKey(index, testament, book, chapter, verse, suffix) =>
      && Has(m, "type", Str(Text("verse_key"))) && Has(m, "index", Integer(index))
      && Has(m, "testament", Integer(testament)) && Has(m, "book", Integer(book))
      && Has(m, "chapter", Integer(chapter)) && Has(m, "verse", Integer(verse)) && Has(m, "suffix", Integer(suffix))
  }

  predicate SaysEntry(m: seq<Member>, e: EntryData)
  {
    && Has(m, "ordinal", Integer(e.ordinal)) && HasBytes(m, "key", e.key) && HasBytes(m, "raw", e.raw)
    && HasBytesOrNot(m, "normalized_raw", e.normalizedRaw)
    && HasBytesOrNot(m, "normalized_stripped", e.normalizedStripped)
    && Has(m, "projections_available", Bool(e.projections.Some?))
    && (match e.projections
        case Some(p) => HasBytes(m, "rendered_default", p.rendered) && HasBytes(m, "stripped", p.stripped)
        case None => Has(m, "rendered_default", Null) && Has(m, "stripped", Null))
    && SaysScope(m, e.scope)
  }

  predicate SaysBegin(m: seq<Member>, r: Record)
    requires r.ArtifactBegin?
  {
    && Has(m, "artifact_id", Integer(r.id)) && Has(m, "mode", Integer(r.mode)) && HasBytes(m, "path", r.path)
    && Has(m, "role", Str(r.role))
    && match r.fileType
       case Regular =>
         && Has(m, "file_type", Str(Text("regular"))) && r.target == None
         && (r.sizeExpected.Some? ==> Has(m, "size_expected", Integer(r.sizeExpected.value)))
       case Directory => Has(m, "file_type", Str(Text("directory"))) && r.target == None && r.sizeExpected == None
       case Symlink =>
         && Has(m, "file_type", Str(Text("symlink"))) && r.sizeExpected == None
         && (r.target.Some? ==> HasBytes(m, "target", r.target.value))
  }

  predicate SaysFooter(m: seq<Member>, r: Record)
    requires r.Footer?
  {
    && Has(m, "artifact_bytes", Integer(r.artifactBytes)) && Has(m, "artifacts", Integer(r.artifacts))
    && Has(m, "entries", Integer(r.entries)) && Has(m, "stream_sha256", Str(r.streamSha256))
    && Has(m, "success", Bool(r.success))
    && exists i :: 0 <= i < |m| && m[i].name == Text("diagnostics") && m[i].value.Object?
                   && SaysTotals(m[i].value.members, r.diagnostics)
  }

  predicate SaysTotals(m: seq<Member>, d: DiagnosticCounts)
  {
    Has(m, "info", Integer(d.info)) && Has(m, "warning", Integer(d.warning)) && Has(m, "error", Integer(d.error))
  }

  /** What the record says is what the members of these names say. */
  predicate SaysRecord(m: seq<Member>, r: Record)
  {
    match r
    case Header(command, chunkSize) =>
      && Has(m, "command", Str(if command == List then Text("list") else Text("extract")))
      && (chunkSize.Some? ==> Has(m, "artifact_chunk_size", Integer(chunkSize.value)))
    case Module => true
    case ConfigSource(ordinal, path, raw) =>
      Has(m, "ordinal", Integer(ordinal)) && HasBytes(m, "path", path) && HasBytes(m, "raw", raw)
    case ConfigEntry(ordinal, name, value) =>
      Has(m, "ordinal", Integer(ordinal)) && HasBytes(m, "name", name) && HasBytes(m, "value", value)
    case Entry(e) => SaysEntry(m, e)
    case ArtifactBegin(_, _, _, _, _, _, _) => SaysBegin(m, r)
    case ArtifactChunk(id, index, data) =>
      Has(m, "artifact_id", Integer(id)) && Has(m, "index", Integer(index)) && HasBytes(m, "data", data)
    case ArtifactEnd(id, digest, size, stable) =>
      && Has(m, "artifact_id", Integer(id)) && Has(m, "sha256", Str(digest)) && Has(m, "size", Integer(size))
      && (stable.Some? ==> Has(m, "stable", Bool(stable.value)))
    case Diagnostic(severity, code) =>
      && Has(m, "code", Str(code))
      && Has(m, "severity", Str(match severity
                                case Info => Text("info")
                                case Warning => Text("warning")
                                case Error => Text("error")))
    case Footer(_, _, _, _, _, _, _) => SaysFooter(m, r)
  }

  // Finding members.

  lemma Found(m: seq<Member>, name: string)
    ensures Get(m, name).Some? ==> Has(m, name, Get(m, name).value) && Required(m, name)
  {
    hide Text;
  }

  lemma NotThere(m: seq<Member>, name: string)
    ensures Get(m, name).None? ==> !Required(m, name)
  {
    hide Text;
  }

  lemma HexIsDigest(b: bytes)
    ensures HexDigest(Sha256Hex(b))
  {
    hide Sha256;
    HexDigits(Sha256(b));
  }

  lemma {:induction false} HexDigits(b: bytes)
    ensures forall i :: 0 <= i < |Hex(b)| ==> 0x30 <= Hex(b)[i] <= 0x39 || 0x61 <= Hex(b)[i] <= 0x66
  {
    hide HexDigit;
    if b != [] {
      HexDigits(b[1..]);
    }
  }

  lemma MemberConforms(x: Member, b: bytes)
    requires x in Envelope(b)
    ensures ByteMember(x)
  {
    EnvelopeHas(b, x);
    HexIsDigest(b);
    hide Envelope, Sha256Hex, Base64.Encode, Utf8.Valid, Text, HexDigest;
  }

  /** An object that decodes is an envelope of its octets, and a byte value by the schema. */
  lemma DecodedIs(j: Json, b: bytes)
    requires Unambiguous(j) && DecodeByteValue(j) == Some(b)
    ensures j.Object? && HasRequired(j.members, b) && OnlyEnvelope(j.members, b) && IsByteValue(j)
  {
    IsObject(j);
    hide DecodeByteValue, HasRequired, OnlyEnvelope, ByteMember, Envelope, Required, Text;
    DecodesIffEnvelope(j.members, b);
    NamesThere(j.members, b);
    forall i | 0 <= i < |j.members|
      ensures ByteMember(j.members[i])
    {
      EnvelopeOnly(j.members, b, i);
      MemberConforms(j.members[i], b);
    }
  }

  lemma IsObject(j: Json)
    requires DecodeByteValue(j).Some?
    ensures j.Object?
  {
    hide Lookup, KnownName, Sha256Hex, Base64.CanonicalDecode, Utf8.Valid;
  }

  lemma EnvelopeOnly(members: seq<Member>, b: bytes, i: nat)
    requires OnlyEnvelope(members, b) && i < |members|
    ensures members[i] in Envelope(b)
  {
    hide Envelope;
  }

  lemma NamesThere(members: seq<Member>, b: bytes)
    requires HasRequired(members, b)
    ensures Required(members, "base64") && Required(members, "encoding") && Required(members, "sha256")
    ensures Required(members, "size")
  {
    hide Sha256Hex, Base64.Encode, Text;
  }

  lemma PartOf(m: seq<Member>, x: Member)
    requires Unambiguous(Object(m)) && x in m
    ensures Unambiguous(x.value)
  {
    var i :| 0 <= i < |m| && m[i] == x;
  }

  lemma BytesFound(m: seq<Member>, name: string)
    requires Unambiguous(Object(m)) && ByteString(Get(m, name)).Some?
    ensures HasBytes(m, name, ByteString(Get(m, name)).value) && BytesUnder(m, name) && Required(m, name)
  {
    hide Text, Unambiguous, DecodeByteValue, HasRequired, OnlyEnvelope, IsByteValue, Lookup, Named;
    Found(m, name);
    var v := Get(m, name).value;
    PartOf(m, Member(Text(name), v));
    DecodedIs(v, DecodeByteValue(v).value);
    OnlyOne(m, name, v);
  }

  lemma OnlyOne(m: seq<Member>, name: string, v: Json)
    requires Unambiguous(Object(m)) && Has(m, name, v)
    ensures DistinctNames(m) && forall i :: 0 <= i < |m| && m[i].name == Text(name) ==> m[i].value == v
  {
    hide Text;
    var k :| 0 <= k < |m| && m[k] == Member(Text(name), v);
  }

  lemma MaybeFound(m: seq<Member>, name: string)
    requires Unambiguous(Object(m)) && MaybeBytes(Get(m, name)).Some?
    ensures HasBytesOrNot(m, name, MaybeBytes(Get(m, name)).value) && BytesOrNullUnder(m, name)
  {
    hide Text, Unambiguous, DecodeByteValue, HasRequired, OnlyEnvelope, IsByteValue, Lookup, Named;
    Found(m, name);
    NotThere(m, name);
    if Get(m, name).Some? {
      OnlyOne(m, name, Get(m, name).value);
      if Get(m, name).value != Null {
        BytesFound(m, name);
      }
    } else {
      assert forall i :: 0 <= i < |m| ==> m[i].name != Text(name) by { NobodyNamed(m, name); }
    }
  }

  lemma NobodyNamed(m: seq<Member>, name: string)
    requires !Required(m, name)
    ensures forall i :: 0 <= i < |m| ==> m[i].name != Text(name)
  {
    hide Text;
  }

  // Record by record.

  /** What is known of a line's object: no name twice, a type, a number. */
  ghost predicate Framed(m: seq<Member>, name: string)
  {
    Unambiguous(Object(m)) && Base(m, name)
  }

  lemma HeaderSays(m: seq<Member>)
    requires Framed(m, "header") && HeaderShape(m) && HeaderFrom(m).Some?
    ensures HeaderConforms(m) && SaysRecord(m, HeaderFrom(m).value)
  {
    hide Text, Unambiguous, Get, Required, Has;
    Found(m, "contract");
    Found(m, "contract_version");
    Found(m, "command");
    Found(m, "producer");
    Found(m, "producer_version");
    Found(m, "sword_version");
    Found(m, "artifact_chunk_size");
  }

  lemma ModuleSays(m: seq<Member>)
    requires Framed(m, "module") && ModuleShape(m)
    ensures ModuleConforms(m)
  {
    hide Text, Unambiguous, Get, Required, Has, DecodeByteValue, IsEnum;
    Found(m, "classification");
    Found(m, "driver");
    Found(m, "name");
    Found(m, "sword_type");
  }

  lemma ConfigSourceSays(m: seq<Member>)
    requires Framed(m, "config_source") && ConfigSourceFrom(m).Some?
    ensures ConfigSourceConforms(m) && SaysRecord(m, ConfigSourceFrom(m).value)
  {
    hide Text, Unambiguous, Get, Required, Has, ByteString, BytesUnder, HasBytes;
    Found(m, "ordinal");
    BytesFound(m, "path");
    BytesFound(m, "raw");
  }

  lemma ConfigEntrySays(m: seq<Member>)
    requires Framed(m, "config_entry") && ConfigEntryFrom(m).Some?
    ensures ConfigEntryConforms(m) && SaysRecord(m, ConfigEntryFrom(m).value)
  {
    hide Text, Unambiguous, Get, Required, Has, ByteString, BytesUnder, HasBytes;
    Found(m, "ordinal");
    BytesFound(m, "name");
    BytesFound(m, "value");
  }

  lemma ScopeSays(m: seq<Member>)
    requires ScopeFrom(Get(m, "scope")).Some?
    ensures SaysScope(m, ScopeFrom(Get(m, "scope")).value) && Required(m, "scope")
  {
    Found(m, "scope");
    var v := Get(m, "scope").value;
    PlaceSays(v);
    hide Text, Get, Required, ScopeFrom, SaysPlace;
    assert Member(Text("scope"), v) in m;
  }

  lemma PlaceSays(v: Json)
    requires ScopeFrom(Some(v)).Some?
    ensures v.Object? && SaysPlace(v.members, ScopeFrom(Some(v)).value)
  {
    hide Text, Get, Has;
    if v.Object? {
      Found(v.members, "type");
      Found(v.members, "index");
      Found(v.members, "testament");
      Found(v.members, "book");
      Found(v.members, "chapter");
      Found(v.members, "verse");
      Found(v.members, "suffix");
    }
  }

  lemma ProjectionsSay(m: seq<Member>)
    requires Unambiguous(Object(m)) && ProjectionsFrom(m).Some?
    ensures Has(m, "projections_available", Bool(ProjectionsFrom(m).value.Some?))
    ensures match ProjectionsFrom(m).value
            case Some(p) => HasBytes(m, "rendered_default", p.rendered) && HasBytes(m, "stripped", p.stripped)
            case None => Has(m, "rendered_default", Null) && Has(m, "stripped", Null)
  {
    hide Text, Unambiguous, Get, Required, Has, ByteString, BytesUnder, HasBytes;
    Found(m, "projections_available");
    Found(m, "rendered_default");
    Found(m, "stripped");
    if ProjectionsFrom(m).value.Some? {
      BytesFound(m, "rendered_default");
      BytesFound(m, "stripped");
    }
  }

  lemma EntrySays(m: seq<Member>)
    requires Framed(m, "entry") && AttributesShape(Get(m, "official_attributes")) && EntryFrom(m).Some?
    ensures EntryConforms(m) && SaysRecord(m, EntryFrom(m).value)
  {
    hide Text, Unambiguous, Get, Required, Has, ByteString, BytesUnder, BytesOrNullUnder, HasBytes, HasBytesOrNot,
      MaybeBytes, ProjectionsFrom, ScopeFrom, SegmentsFrom, SaysScope, AttributeTypeShape;
    Found(m, "ordinal");
    Found(m, "annotation_segments");
    Found(m, "official_attributes");
    BytesFound(m, "key");
    BytesFound(m, "raw");
    MaybeFound(m, "normalized_raw");
    MaybeFound(m, "normalized_stripped");
    ProjectionsSay(m);
    ScopeSays(m);
  }

  lemma BeginSays(m: seq<Member>)
    requires Framed(m, "artifact_begin") && BeginFrom(m).Some?
    ensures BeginConforms(m) && SaysRecord(m, BeginFrom(m).value)
  {
    hide Text, Unambiguous, Get, Required, Has, ByteString, BytesUnder, HasBytes;
    Found(m, "artifact_id");
    Found(m, "file_type");
    Found(m, "mode");
    Found(m, "role");
    Found(m, "size_expected");
    BytesFound(m, "path");
    if ByteString(Get(m, "target")).Some? {
      BytesFound(m, "target");
    }
  }

  lemma ChunkSays(m: seq<Member>)
    requires Framed(m, "artifact_chunk") && ChunkFrom(m).Some?
    ensures ChunkConforms(m) && SaysRecord(m, ChunkFrom(m).value)
  {
    hide Text, Unambiguous, Get, Required, Has, ByteString, BytesUnder, HasBytes;
    Found(m, "artifact_id");
    Found(m, "index");
    BytesFound(m, "data");
  }

  lemma EndSays(m: seq<Member>)
    requires Framed(m, "artifact_end") && EndFrom(m).Some?
    ensures EndConforms(m) && SaysRecord(m, EndFrom(m).value)
  {
    hide Text, Unambiguous, Get, Required, Has;
    Found(m, "artifact_id");
    Found(m, "sha256");
    Found(m, "size");
    Found(m, "stable");
  }

  lemma DiagnosticSays(m: seq<Member>)
    requires Framed(m, "diagnostic") && IsBytes(Get(m, "message")) && DiagnosticFrom(m).Some?
    ensures DiagnosticConforms(m) && SaysRecord(m, DiagnosticFrom(m).value)
  {
    hide Text, Unambiguous, Get, Required, Has, DecodeByteValue;
    Found(m, "code");
    Found(m, "severity");
    Found(m, "message");
  }

  lemma TotalsSay(m: seq<Member>)
    requires DiagnosticsFrom(Get(m, "diagnostics")).Some?
    ensures exists i :: 0 <= i < |m| && m[i].name == Text("diagnostics") && m[i].value.Object?
                        && SaysTotals(m[i].value.members, DiagnosticsFrom(Get(m, "diagnostics")).value)
  {
    Found(m, "diagnostics");
    var v := Get(m, "diagnostics").value;
    SeveritiesSay(v);
    hide Text, Get, Required, DiagnosticsFrom, SaysTotals;
    assert Member(Text("diagnostics"), v) in m;
  }

  lemma SeveritiesSay(v: Json)
    requires DiagnosticsFrom(Some(v)).Some?
    ensures v.Object? && SaysTotals(v.members, DiagnosticsFrom(Some(v)).value)
  {
    hide Text, Get, Has, SeveritiesOnly;
    if v.Object? {
      Found(v.members, "info");
      Found(v.members, "warning");
      Found(v.members, "error");
    }
  }

  lemma FooterSays(m: seq<Member>)
    requires Framed(m, "footer") && FooterFrom(m).Some?
    ensures SaysRecord(m, FooterFrom(m).value)
    ensures HexDigest(FooterFrom(m).value.streamSha256) ==> FooterConforms(m)
  {
    hide Text, Unambiguous, Get, Required, Has, DiagnosticsFrom, SaysTotals, CountsFrom, HexDigest;
    Found(m, "artifact_bytes");
    Found(m, "artifacts");
    Found(m, "entries");
    Found(m, "stream_sha256");
    Found(m, "success");
    Found(m, "counts");
    TotalsSay(m);
  }

  function Spelled(t: RecordType): string
  {
    match t
    case HeaderType => "header"
    case ModuleType => "module"
    case ConfigSourceType => "config_source"
    case ConfigEntryType => "config_entry"
    case EntryType => "entry"
    case ArtifactBeginType => "artifact_begin"
    case ArtifactChunkType => "artifact_chunk"
    case ArtifactEndType => "artifact_end"
    case DiagnosticType => "diagnostic"
    case FooterType => "footer"
  }

  lemma {:induction false} TypeIs(name: bytes, n: nat)
    requires n <= 10 && TypeFrom(name, n).Some?
    ensures name == Text(Spelled(TypeFrom(name, n).value))
  {
    hide Text;
    if Writer.TypeName(Writer.TypeAt(n - 1)) != name {
      TypeIs(name, n - 1);
    }
  }

  /** A footer with a digest keeps to the schema, and so does every other record. */
  ghost predicate Kept(m: seq<Member>, r: Record)
  {
    (r.Footer? ==> HexDigest(r.streamSha256)) ==> Conforms(m)
  }

  lemma DescriptionSays(t: RecordType, m: seq<Member>)
    requires t == HeaderType || t == ModuleType || t == ConfigSourceType || t == ConfigEntryType || t == EntryType
    requires Framed(m, Spelled(t)) && Shaped(t, m) && RecordFrom(t, m).Some?
    ensures SaysRecord(m, RecordFrom(t, m).value) && Kept(m, RecordFrom(t, m).value)
  {
    Distinct(m, Spelled(t));
    hide Text, Framed, HeaderFrom, ConfigSourceFrom, ConfigEntryFrom, EntryFrom, BeginFrom, ChunkFrom, EndFrom,
      DiagnosticFrom, HeaderShape, ModuleShape, AttributesShape, ScopeShape, Embedded, HeaderConforms, ModuleConforms,
      ConfigSourceConforms, ConfigEntryConforms, EntryConforms, BeginConforms, ChunkConforms, EndConforms,
      DiagnosticConforms, FooterConforms, HexDigest, SaysRecord, DistinctNames, Get, IsBytes;
    match t
    case HeaderType => HeaderSays(m);
    case ModuleType => ModuleSays(m); SaysNothing(m);
    case ConfigSourceType => ConfigSourceSays(m);
    case ConfigEntryType => ConfigEntrySays(m);
    case EntryType => EntrySays(m);
  }

  lemma CaptureSays(t: RecordType, m: seq<Member>)
    requires t == ArtifactBeginType || t == ArtifactChunkType || t == ArtifactEndType || t == DiagnosticType
    requires Framed(m, Spelled(t)) && Shaped(t, m) && RecordFrom(t, m).Some?
    ensures SaysRecord(m, RecordFrom(t, m).value) && Kept(m, RecordFrom(t, m).value)
  {
    Distinct(m, Spelled(t));
    hide Text, Framed, HeaderFrom, ConfigSourceFrom, ConfigEntryFrom, EntryFrom, BeginFrom, ChunkFrom, EndFrom,
      DiagnosticFrom, HeaderShape, ModuleShape, AttributesShape, ScopeShape, Embedded, HeaderConforms, ModuleConforms,
      ConfigSourceConforms, ConfigEntryConforms, EntryConforms, BeginConforms, ChunkConforms, EndConforms,
      DiagnosticConforms, FooterConforms, HexDigest, SaysRecord, DistinctNames, Get, IsBytes;
    match t
    case ArtifactBeginType => BeginSays(m);
    case ArtifactChunkType => ChunkSays(m);
    case ArtifactEndType => EndSays(m);
    case DiagnosticType => DiagnosticSays(m);
  }

  lemma TotalSays(m: seq<Member>)
    requires Framed(m, "footer") && FooterFrom(m).Some?
    ensures SaysRecord(m, FooterFrom(m).value) && Kept(m, FooterFrom(m).value)
  {
    hide *;
    Distinct(m, "footer");
    FooterIsFooter(m);
    FooterSays(m);
    FooterKept(m, FooterFrom(m).value);
  }

  lemma FooterKept(m: seq<Member>, r: Record)
    requires DistinctNames(m) && r.Footer? && (HexDigest(r.streamSha256) ==> FooterConforms(m))
    ensures Kept(m, r)
  {
    hide DistinctNames, HexDigest, FooterConforms, HeaderConforms, ModuleConforms, ConfigSourceConforms,
      ConfigEntryConforms, EntryConforms, BeginConforms, ChunkConforms, EndConforms, DiagnosticConforms;
  }

  lemma RecordSays(t: RecordType, m: seq<Member>)
    requires Framed(m, Spelled(t)) && Shaped(t, m) && RecordFrom(t, m).Some?
    ensures SaysRecord(m, RecordFrom(t, m).value) && Kept(m, RecordFrom(t, m).value)
  {
    hide Text, Framed, Shaped, Kept, SaysRecord, HeaderFrom, ConfigSourceFrom, ConfigEntryFrom, EntryFrom, BeginFrom,
      ChunkFrom, EndFrom, DiagnosticFrom, FooterFrom;
    if t == FooterType {
      TotalSays(m);
    } else if t == ArtifactBeginType || t == ArtifactChunkType || t == ArtifactEndType || t == DiagnosticType {
      CaptureSays(t, m);
    } else {
      DescriptionSays(t, m);
    }
  }

  lemma SaysNothing(m: seq<Member>)
    ensures SaysRecord(m, Module)
  {
  }

  lemma FooterIsFooter(m: seq<Member>)
    requires FooterFrom(m).Some?
    ensures FooterFrom(m).value.Footer?
  {
    hide Get, DiagnosticsFrom, CountsFrom;
  }

  lemma Distinct(m: seq<Member>, name: string)
    requires Framed(m, name)
    ensures DistinctNames(m)
  {
  }

  /** One line: the schema allows it, and its record says what its members say. */
  ghost predicate Tells(text: bytes, line: Line)
  {
    exists m: seq<Member> ::
      && ParseText(text) == Some(Object(m)) && Has(m, "sequence", Integer(line.sequence))
      && SaysRecord(m, line.record) && (Sound(line) ==> Conforms(m))
  }

  /** If it is a footer, its digest is one. */
  predicate Sound(line: Line)
  {
    line.record.Footer? ==> HexDigest(line.record.streamSha256)
  }

  lemma LineTells(text: bytes)
    requires LineFrom(text).Some? && LineFrom(text).value.sequence >= 0
    ensures Tells(text, LineFrom(text).value)
  {
    hide ParseText, Text, Get, Shaped, RecordFrom, SaysRecord, Unambiguous, Conforms, HexDigest, TypeFrom, Has;
    ParsedUnambiguous(text);
    var m := ParseText(text).value.members;
    Found(m, "type");
    Found(m, "sequence");
    var line := LineFrom(text).value;
    TypeIs(String(Get(m, "type")).value, 10);
    var t := TypeFrom(String(Get(m, "type")).value, 10).value;
    assert Framed(m, Spelled(t)) by {
      assert Has(m, "sequence", Integer(line.sequence));
    }
    RecordSays(t, m);
  }
}
