/** Reading the printed members of a record gives the record back. */
module RecordTrip {
  import opened Bytes
  import opened Records
  import opened JsonText
  import opened JsonParse
  import opened JsonLines
  import opened ByteValue
  import opened RecordText
  import opened RecordCodec
  import opened RecordReading
  import Annotation
  import Readback
  import Utf8
  import Writer

  // Members of a printed map.

  function MembersIn(values: map<bytes, Json>): seq<Member>
  {
    ObjectOf(values).members
  }

  lemma ObjectLookup(values: map<bytes, Json>, name: bytes)
    ensures Lookup(MembersIn(values), name) == if name in values then Some(values[name]) else None
  {
    hide SortedNames, Lookup, Increasing;
    SortedNamesFacts(values.Keys);
    var names := SortedNames(values.Keys);
    var members := MembersIn(values);
    assert |members| == |names| && forall i :: 0 <= i < |members| ==> members[i] == Member(names[i], values[names[i]]);
    IncreasingDistinct(names);
    if name in values {
      var i :| 0 <= i < |names| && names[i] == name;
      assert members[i] == Member(name, values[name]);
      LookupMember(members, i);
    } else {
      NotFound(members, name);
    }
  }

  lemma IncreasingDistinct(names: seq<bytes>)
    requires Increasing(names)
    ensures forall i, j :: 0 <= i < j < |names| ==> names[i] != names[j]
  {
    hide Less;
    forall i, j | 0 <= i < j < |names|
      ensures names[i] != names[j]
    {
      LessIrreflexive(names[i]);
    }
  }

  /** Every part is found under its name. */
  predicate Holds(m: seq<Member>, parts: seq<Part>)
  {
    forall i :: 0 <= i < |parts| ==> Get(m, parts[i].name) == Some(parts[i].value)
  }

  lemma PartsHeld(parts: seq<Part>, more: map<bytes, Json>)
    requires WellPrinted(parts) && DistinctParts(parts)
    ensures Holds(MembersIn(more + PartValues(parts)), parts)
  {
    hide Good, DistinctParts, MembersIn, Lookup, PartValues, Text;
    forall i | 0 <= i < |parts|
      ensures Get(MembersIn(more + PartValues(parts)), parts[i].name) == Some(parts[i].value)
    {
      PartFound(parts, i);
      ObjectLookup(more + PartValues(parts), Text(parts[i].name));
    }
  }

  /** The members of a record line. */
  function LineMembers(t: RecordType, sequence: nat, more: map<bytes, Json>, parts: seq<Part>): seq<Member>
  {
    MembersIn((more + PartValues(parts))[Writer.SEQUENCE := Integer(sequence)][Writer.TYPE := Str(Writer.TypeName(t))])
  }

  /** No part is called like the members the writer adds. */
  predicate Unnumbered(parts: seq<Part>)
  {
    "sequence" !in PartNames(parts) && "type" !in PartNames(parts)
  }

  lemma ReservedNames(name: string)
    requires AsciiText(name) && name != "sequence" && name != "type"
    ensures Text(name) != Writer.SEQUENCE && Text(name) != Writer.TYPE && Writer.SEQUENCE != Writer.TYPE
  {
    hide Text;
    if Text(name) == Text("sequence") {
      TextInjective(name, "sequence");
    }
    if Text(name) == Text("type") {
      TextInjective(name, "type");
    }
    assert |Writer.SEQUENCE| == 8 && |Writer.TYPE| == 4;
  }

  lemma LineHolds(t: RecordType, sequence: nat, more: map<bytes, Json>, parts: seq<Part>)
    requires WellPrinted(parts) && DistinctParts(parts) && Unnumbered(parts)
    ensures Holds(LineMembers(t, sequence, more, parts), parts)
  {
    hide DistinctParts, MembersIn, Lookup, PartValues, Text, Printed, AsciiText, Writer.TypeName;
    var full :=
      (more + PartValues(parts))[Writer.SEQUENCE := Integer(sequence)][Writer.TYPE := Str(Writer.TypeName(t))];
    forall i | 0 <= i < |parts|
      ensures Get(MembersIn(full), parts[i].name) == Some(parts[i].value)
    {
      assert PartNames(parts)[i] == parts[i].name;
      PartFound(parts, i);
      ReservedNames(parts[i].name);
      ObjectLookup(full, Text(parts[i].name));
    }
  }

  /** A member that is neither a part nor an extra one is not there. */
  lemma LineLacks(t: RecordType, sequence: nat, more: map<bytes, Json>, parts: seq<Part>, name: string)
    requires WellPrinted(parts) && AsciiText(name) && name !in PartNames(parts) && name != "sequence" && name != "type"
    requires Text(name) !in more
    ensures Get(LineMembers(t, sequence, more, parts), name) == None
  {
    hide MembersIn, Lookup, PartValues, Text, Good, AsciiText, Writer.TypeName;
    var full :=
      (more + PartValues(parts))[Writer.SEQUENCE := Integer(sequence)][Writer.TYPE := Str(Writer.TypeName(t))];
    forall i | 0 <= i < |parts|
      ensures parts[i].name != name
    {
      assert PartNames(parts)[i] == parts[i].name;
    }
    PartsOnly(parts, name);
    ReservedNames(name);
    ObjectLookup(full, Text(name));
  }

  lemma LineNumbered(t: RecordType, sequence: nat, more: map<bytes, Json>, parts: seq<Part>)
    ensures Get(LineMembers(t, sequence, more, parts), "sequence") == Some(Integer(sequence))
    ensures Get(LineMembers(t, sequence, more, parts), "type") == Some(Str(Writer.TypeName(t)))
  {
    hide MembersIn, Lookup, PartValues, Text, Writer.TypeName;
    var full :=
      (more + PartValues(parts))[Writer.SEQUENCE := Integer(sequence)][Writer.TYPE := Str(Writer.TypeName(t))];
    assert |Writer.SEQUENCE| == 8 && |Writer.TYPE| == 4;
    ObjectLookup(full, Writer.SEQUENCE);
    ObjectLookup(full, Writer.TYPE);
  }

  // Single values.

  lemma BytesRead(b: bytes)
    ensures ByteString(Some(ByteObject(b))) == Some(b) && ByteObject(b) != Null
  {
    hide DecodeByteValue, Envelope, EnvelopeText;
    ByteValueRoundTrip(b);
  }

  lemma MaybeRead(b: Option<bytes>)
    ensures MaybeBytes(Some(OptionalValue(b))) == Some(b)
  {
    hide DecodeByteValue, Envelope;
    if b.Some? {
      BytesRead(b.value);
    }
  }

  /** Names that are told apart by their length. */
  lemma NamesApart()
    ensures |Text("list")| == 4 && |Text("extract")| == 7
    ensures |Text("text")| == 4 && |Text("markup")| == 6 && |Text("entity")| == 6 && Text("markup") != Text("entity")
    ensures |Text("regular")| == 7 && |Text("directory")| == 9 && |Text("symlink")| == 7
            && Text("regular") != Text("symlink")
    ensures |Text("info")| == 4 && |Text("warning")| == 7 && |Text("error")| == 5
    ensures |Text("sword_key")| == 9 && |Text("verse_key")| == 9 && Text("sword_key") != Text("verse_key")
  {
    assert Text("markup")[0] == 0x6d && Text("entity")[0] == 0x65;
    assert Text("regular")[0] == 0x72 && Text("symlink")[0] == 0x73;
    assert Text("sword_key")[0] == 0x73 && Text("verse_key")[0] == 0x76;
  }

  lemma KindRead(k: Annotation.Kind)
    ensures KindFrom(Some(Str(Text(KindName(k))))) == Some(k)
  {
    NamesApart();
    hide Text;
  }

  lemma FileTypeRead(t: FileType)
    ensures FileTypeFrom(Some(Str(Text(FileTypeName(t))))) == Some(t)
  {
    NamesApart();
    hide Text;
  }

  lemma SeverityRead(s: Severity)
    ensures SeverityFrom(Some(Str(Text(SeverityName(s))))) == Some(s)
  {
    NamesApart();
    hide Text;
  }

  // Segments and scope.

  lemma SegmentRead(s: Annotation.Segment)
    ensures SegmentFrom(SegmentValue(s)) == Some(s)
  {
    hide Lookup, Text, KindFrom, KindName, Interpretation, Envelope, DecodeByteValue, Increasing, Utf8.Valid,
      ByteString;
    var names := SegmentNames();
    var members := SegmentValue(s).members;
    SegmentNamesIncrease();
    IncreasingDistinct(names);
    assert forall i :: 0 <= i < 3 ==> members[i].name == names[i];
    LookupMember(members, 0);
    LookupMember(members, 1);
    LookupMember(members, 2);
    KindRead(s.kind);
    BytesRead(s.raw);
  }

  lemma {:induction false} SegmentsRead(segments: seq<Annotation.Segment>)
    ensures SegmentsFrom(SegmentValues(segments)) == Some(segments)
  {
    hide SegmentFrom, SegmentValue;
    var n := |segments| - 1;
    if segments == [] {
    } else {
      assert SegmentValues(segments)[..n] == SegmentValues(segments[..n]);
      SegmentsRead(segments[..n]);
      SegmentRead(segments[n]);
      assert SegmentValues(segments)[n] == SegmentValue(segments[n]) && segments[..n] + [segments[n]] == segments;
    }
  }

  lemma ScopeNames(scope: Scope)
    ensures PartNames(ScopeParts(scope)) ==
            if scope.SwordKey? then ["index", "type"]
            else ["book", "chapter", "index", "suffix", "testament", "type", "verse"]
    ensures DistinctParts(ScopeParts(scope))
  {
    hide Signed, JsonString, Text;
  }

  lemma ScopeRead(scope: Scope, more: Extras)
    ensures ScopeFrom(Some(ScopePart(scope, more).value)) == Some(scope)
  {
    ScopePartsPrinted(scope);
    ScopeNames(scope);
    PartsHeld(ScopeParts(scope), more.values);
    HeldScope(scope, MembersIn(more.values + PartValues(ScopeParts(scope))));
  }

  lemma HeldScope(scope: Scope, m: seq<Member>)
    requires Holds(m, ScopeParts(scope))
    ensures ScopeFrom(Some(Object(m))) == Some(scope)
  {
    hide Lookup, Signed, JsonString, Get;
    NamesApart();
    hide Text;
    var parts := ScopeParts(scope);
    if scope.SwordKey? {
      assert parts[0].name == "index" && parts[1].name == "type";
    } else {
      assert parts[0].name == "book" && parts[1].name == "chapter" && parts[2].name == "index"
             && parts[3].name == "suffix";
      assert parts[4].name == "testament" && parts[5].name == "type" && parts[6].name == "verse";
    }
  }

  // Records.

  lemma HeaderRead(command: Command, chunkSize: Option<int>, m: seq<Member>)
    requires Holds(m, HeaderParts(command, chunkSize)) && (chunkSize.Some? ==> command == Extract)
    requires chunkSize.None? ==> Get(m, "artifact_chunk_size") == None
    ensures HeaderFrom(m) == Some(Header(command, chunkSize))
  {
    hide Get, Signed, JsonString, Readback.Word;
    NamesApart();
    hide Text;
    var parts := HeaderParts(command, chunkSize);
    assert parts[0].name == "command" && parts[1].name == "contract" && parts[2].name == "contract_version";
    assert parts[3].name == "deterministic" && parts[4].name == "producer";
    if chunkSize.Some? {
      assert parts[5].name == "artifact_chunk_size";
    }
  }

  lemma ConfigSourceRead(ordinal: int, path: bytes, raw: bytes, scope: Extras, m: seq<Member>)
    requires Holds(m, PartsOf(ConfigSource(ordinal, path, raw), scope))
    ensures ConfigSourceFrom(m) == Some(ConfigSource(ordinal, path, raw))
  {
    hide Get, Signed, EnvelopeText, ByteObject, DecodeByteValue;
    var parts := PartsOf(ConfigSource(ordinal, path, raw), scope);
    assert parts[0].name == "ordinal" && parts[1].name == "path" && parts[2].name == "raw";
    BytesRead(path);
    BytesRead(raw);
  }

  lemma ConfigEntryRead(ordinal: int, name: bytes, value: bytes, scope: Extras, m: seq<Member>)
    requires Holds(m, PartsOf(ConfigEntry(ordinal, name, value), scope))
    ensures ConfigEntryFrom(m) == Some(ConfigEntry(ordinal, name, value))
  {
    hide Get, Signed, EnvelopeText, ByteObject, DecodeByteValue;
    var parts := PartsOf(ConfigEntry(ordinal, name, value), scope);
    assert parts[0].name == "name" && parts[1].name == "ordinal" && parts[2].name == "value";
    BytesRead(name);
    BytesRead(value);
  }

  lemma ProjectionsRead(p: Option<Projections>, m: seq<Member>)
    requires Get(m, "projections_available") == Some(Bool(p.Some?))
    requires Get(m, "rendered_default") == Some(OptionalValue(if p.Some? then Some(p.value.rendered) else None))
    requires Get(m, "stripped") == Some(OptionalValue(if p.Some? then Some(p.value.stripped) else None))
    ensures ProjectionsFrom(m) == Some(p)
  {
    hide Get, ByteObject, DecodeByteValue;
    if p.Some? {
      BytesRead(p.value.rendered);
      BytesRead(p.value.stripped);
    }
  }

  /** What the parts of an entry say, one by one. */
  lemma EntryHeld(e: EntryData, scope: Extras, m: seq<Member>)
    requires Holds(m, EntryParts(e, scope))
    ensures Get(m, "annotation_segments") == Some(Array(SegmentValues(e.segments)))
    ensures Get(m, "key") == Some(ByteObject(e.key)) && Get(m, "raw") == Some(ByteObject(e.raw))
    ensures Get(m, "normalized_raw") == Some(OptionalValue(e.normalizedRaw))
    ensures Get(m, "normalized_stripped") == Some(OptionalValue(e.normalizedStripped))
    ensures Get(m, "ordinal") == Some(Integer(e.ordinal))
    ensures Get(m, "projections_available") == Some(Bool(e.projections.Some?))
    ensures Get(m, "rendered_default") ==
            Some(OptionalValue(if e.projections.Some? then Some(e.projections.value.rendered) else None))
    ensures Get(m, "stripped") ==
            Some(OptionalValue(if e.projections.Some? then Some(e.projections.value.stripped) else None))
    ensures Get(m, "scope") == Some(ScopePart(e.scope, scope).value)
  {
    hide Get, Signed, Text, JsonString, EnvelopeText, ByteObject, OptionalText, OptionalValue, Readback.Word,
      SegmentTexts, SegmentValues, ArrayText, ObjectText, ObjectOf, PartFields, PartValues, ScopeParts;
    var parts := EntryParts(e, scope);
    assert parts[0].name == "annotation_segments" && parts[1].name == "key" && parts[2].name == "normalized_raw";
    assert parts[3].name == "normalized_stripped" && parts[4].name == "ordinal"
           && parts[5].name == "projections_available";
    assert parts[6].name == "raw" && parts[7].name == "rendered_default" && parts[8].name == "stripped";
    assert parts[9].name == "scope";
  }

  lemma EntryRead(e: EntryData, scope: Extras, m: seq<Member>)
    requires Holds(m, EntryParts(e, scope))
    ensures EntryFrom(m) == Some(Entry(e))
  {
    hide Get, ByteString, MaybeBytes, ByteObject, OptionalValue, SegmentValues, SegmentsFrom, ScopeFrom, ScopePart,
      ProjectionsFrom, Holds, EntryParts;
    EntryHeld(e, scope, m);
    BytesRead(e.key);
    BytesRead(e.raw);
    MaybeRead(e.normalizedRaw);
    MaybeRead(e.normalizedStripped);
    SegmentsRead(e.segments);
    ScopeRead(e.scope, scope);
    ProjectionsRead(e.projections, m);
  }

  lemma BeginRead(r: Record, m: seq<Member>)
    requires r.ArtifactBegin? && Printable(r) && Holds(m, BeginParts(r))
    ensures BeginFrom(m) == Some(r)
  {
    hide Get, Signed, Text, JsonString, EnvelopeText, ByteObject, ByteString, FileTypeFrom, FileTypeName, Utf8.Valid;
    var parts := BeginParts(r);
    assert parts[0].name == "artifact_id" && parts[1].name == "file_type" && parts[2].name == "mode";
    assert parts[3].name == "path" && parts[4].name == "role";
    FileTypeRead(r.fileType);
    BytesRead(r.path);
    if r.target.Some? {
      assert parts[5].name == "target";
      BytesRead(r.target.value);
    }
    if r.sizeExpected.Some? {
      assert parts[5].name == "size_expected";
    }
  }

  lemma ChunkRead(id: int, index: int, data: bytes, scope: Extras, m: seq<Member>)
    requires Holds(m, PartsOf(ArtifactChunk(id, index, data), scope))
    ensures ChunkFrom(m) == Some(ArtifactChunk(id, index, data))
  {
    hide Get, Signed, EnvelopeText, ByteObject, DecodeByteValue;
    var parts := PartsOf(ArtifactChunk(id, index, data), scope);
    assert parts[0].name == "artifact_id" && parts[1].name == "data" && parts[2].name == "index";
    BytesRead(data);
  }

  lemma EndRead(r: Record, m: seq<Member>)
    requires r.ArtifactEnd? && Holds(m, EndParts(r)) && (r.stable.None? ==> Get(m, "stable") == None)
    ensures EndFrom(m) == Some(r)
  {
    hide Get, Signed, Text, JsonString, Readback.Word;
    var parts := EndParts(r);
    assert parts[0].name == "artifact_id" && parts[1].name == "sha256" && parts[2].name == "size";
    if r.stable.Some? {
      assert parts[3].name == "stable";
    }
  }

  lemma DiagnosticRead(severity: Severity, code: bytes, scope: Extras, m: seq<Member>)
    requires Holds(m, PartsOf(Diagnostic(severity, code), scope))
    ensures DiagnosticFrom(m) == Some(Diagnostic(severity, code))
  {
    hide Get, Text, JsonString, SeverityFrom, SeverityName;
    var parts := PartsOf(Diagnostic(severity, code), scope);
    assert parts[0].name == "code" && parts[1].name == "severity";
    SeverityRead(severity);
  }

  /** The optional members of a record are there exactly when they were printed. */
  predicate Lacks(r: Record, m: seq<Member>)
  {
    match r
    case Header(_, chunkSize) => chunkSize.None? ==> Get(m, "artifact_chunk_size") == None
    case ArtifactEnd(_, _, _, stable) => stable.None? ==> Get(m, "stable") == None
    case _ => true
  }

  /** The members of any printable record read back as the record. */
  lemma RecordRead(r: Record, scope: Extras, m: seq<Member>)
    requires Printable(r) && Holds(m, PartsOf(r, scope)) && Lacks(r, m)
    ensures RecordFrom(TypeOf(r), m) == Some(r)
  {
    hide Holds, Get, HeaderFrom, EntryFrom, BeginFrom, EndFrom, ChunkFrom, DiagnosticFrom, ConfigSourceFrom,
      ConfigEntryFrom, HeaderParts, EntryParts, BeginParts, EndParts, Utf8.Valid, NumberPart, BytesPart, TextPart, Text,
      SeverityName;
    match r
    case Header(command, chunkSize) => HeaderRead(command, chunkSize, m);
    case Module =>
    case ConfigSource(ordinal, path, raw) => ConfigSourceRead(ordinal, path, raw, scope, m);
    case ConfigEntry(ordinal, name, value) => ConfigEntryRead(ordinal, name, value, scope, m);
    case Entry(e) => EntryRead(e, scope, m);
    case ArtifactBegin(_, _, _, _, _, _, _) => BeginRead(r, m);
    case ArtifactChunk(id, index, data) => ChunkRead(id, index, data, scope, m);
    case ArtifactEnd(_, _, _, _) => EndRead(r, m);
    case Diagnostic(severity, code) => DiagnosticRead(severity, code, scope, m);
  }
}
