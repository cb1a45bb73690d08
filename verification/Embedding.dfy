/** Nothing in a printed record looks like a byte value without being one, so printed records pass every check of
    shape. */
module Embedding {
  import opened Bytes
  import opened Records
  import opened JsonText
  import opened JsonParse
  import opened ByteValue
  import opened RecordText
  import opened RecordCodec
  import opened RecordDetail
  import opened RecordReading
  import opened RecordTrip
  import opened DetailShape
  import Annotation
  import Base64
  import JsonLines
  import Readback
  import RecordLines
  import Sha256Spec
  import Utf8
  import Writer

  /** A part that may be a member of an object which is no byte value. */
  predicate Sound(p: Part)
  {
    Embedded(p.value) && p.name != "base64" && (p.name == "encoding" ==> !p.value.Str?)
  }

  predicate AllSound(parts: seq<Part>)
  {
    forall i :: 0 <= i < |parts| ==> Sound(parts[i])
  }

  /** Values that may be the members of an object which is no byte value. */
  predicate SoundMap(values: map<bytes, Json>)
  {
    && BASE64 !in values && (ENCODING in values ==> !values[ENCODING].Str?)
    && forall n :: n in values ==> Embedded(values[n])
  }

  lemma {:induction false} SoundParts(parts: seq<Part>)
    requires AllSound(parts) && WellPrinted(parts)
    ensures SoundMap(PartValues(parts))
  {
    hide Embedded, Text, AsciiText, JsonLines.Printed;
    if parts != [] {
      var n := |parts| - 1;
      var last := parts[n];
      SoundParts(parts[..n]);
      assert Sound(last) && Good(last);
      PlainNames();
      if Text(last.name) == BASE64 {
        TextInjective(last.name, "base64");
      }
      if Text(last.name) == ENCODING {
        TextInjective(last.name, "encoding");
      }
    }
  }

  lemma PlainNames()
    ensures AsciiText("base64") && AsciiText("encoding")
  {
  }

  lemma SoundMerged(a: map<bytes, Json>, b: map<bytes, Json>)
    requires SoundMap(a) && SoundMap(b)
    ensures SoundMap(a + b)
  {
    hide Embedded, Text;
  }

  /** An object of such values is none either, and neither is anything in it. */
  lemma SoundObject(values: map<bytes, Json>)
    requires SoundMap(values)
    ensures Embedded(ObjectOf(values)) && ObjectOf(values) == Object(MembersIn(values))
  {
    hide Text, Lookup, SortedNames, Increasing, DecodeByteValue;
    ObjectLookup(values, BASE64);
    ObjectLookup(values, ENCODING);
    SortedNamesFacts(values.Keys);
    var names := SortedNames(values.Keys);
    var members := MembersIn(values);
    assert |members| == |names| && forall i :: 0 <= i < |members| ==> members[i] == Member(names[i], values[names[i]]);
    forall i | 0 <= i < |members|
      ensures Embedded(members[i].value)
    {
      assert names[i] in values;
    }
  }

  // Single values.

  lemma BytesSound(b: bytes)
    ensures Embedded(ByteObject(b))
  {
    hide Envelope, Text;
    BytesRead(b);
    Recognised(b);
  }

  lemma Recognised(b: bytes)
    requires DecodeByteValue(ByteObject(b)).Some?
    ensures Get(Envelope(b), "base64").Some?
  {
    hide Envelope, Text, Base64.CanonicalDecode, Sha256Spec.Sha256Hex, Lookup, Named;
  }

  lemma OptionalSound(b: Option<bytes>)
    ensures Embedded(OptionalValue(b))
  {
    hide ByteObject;
    if b.Some? {
      BytesSound(b.value);
    }
  }

  lemma ObjectSound(parts: seq<Part>)
    requires AllSound(parts) && WellPrinted(parts)
    ensures Embedded(ObjectOf(PartValues(parts)))
  {
    hide AllSound, WellPrinted, SoundMap, Embedded;
    SoundParts(parts);
    SoundObject(PartValues(parts));
  }

  lemma SegmentSound(s: Annotation.Segment)
    ensures Embedded(SegmentValue(s))
  {
    hide ByteObject, DecodeByteValue, Lookup, Interpretation, KindName;
    var names := SegmentNames();
    assert |names[0]| == 14 && |names[1]| == 4 && |names[2]| == 3 && |BASE64| == 6 && |ENCODING| == 8;
    var members := SegmentValue(s).members;
    assert members[0].name == names[0] && members[1].name == names[1] && members[2].name == names[2];
    hide Text;
    NotFound(members, BASE64);
    NotFound(members, ENCODING);
    BytesSound(s.raw);
  }

  lemma SegmentsSound(segments: seq<Annotation.Segment>)
    ensures Embedded(Array(SegmentValues(segments)))
  {
    hide SegmentValue;
    forall i | 0 <= i < |segments|
      ensures Embedded(SegmentValues(segments)[i])
    {
      SegmentSound(segments[i]);
    }
  }

  // Parts.

  predicate PlainName(s: string)
  {
    s != "base64" && s != "encoding"
  }

  lemma NumberSound(name: string, n: int)
    requires name != "base64"
    ensures Sound(NumberPart(name, n))
  {
    hide Signed;
  }

  lemma BytesPartSound(name: string, b: bytes)
    requires name != "base64"
    ensures Sound(BytesPart(name, b))
  {
    hide EnvelopeText, Embedded;
    BytesSound(b);
  }

  lemma OptionalPartSound(name: string, b: Option<bytes>)
    requires PlainName(name)
    ensures Sound(OptionalPart(name, b))
  {
    hide OptionalText, OptionalValue, Embedded;
    OptionalSound(b);
  }

  lemma ArraySound(name: string, elements: seq<seq<Part>>)
    requires PlainName(name) && AllWellPrinted(elements) && forall i :: 0 <= i < |elements| ==> AllSound(elements[i])
    ensures Sound(ArrayPart(name, elements))
  {
    hide AllSound, WellPrinted, ElementTexts, ArrayText, ObjectOf;
    forall i | 0 <= i < |elements|
      ensures Embedded(ElementValues(elements)[i])
    {
      ObjectSound(elements[i]);
    }
  }

  lemma CodedSound(name: string, c: Coded)
    requires name != "base64"
    ensures Sound(ObjectPart(name, CodedParts(c)))
  {
    hide WellPrinted, Signed, JsonString, Text, ObjectText, PartFields, PartValues;
    CodedPrinted(c);
    ObjectSound(CodedParts(c));
  }

  lemma AttributeSound(a: Attribute)
    ensures AllSound(AttributeParts(a))
  {
    hide Sound, BytesPart;
    BytesPartSound("name", a.name);
    BytesPartSound("value", a.value);
  }

  lemma ListSound(l: AttributeList)
    ensures AllSound(ListParts(l))
  {
    hide Sound, BytesPart, ArrayPart, AttributeParts, WellPrinted;
    forall i | 0 <= i < |l.values|
      ensures AllSound(AttributesParts(l.values)[i]) && WellPrinted(AttributesParts(l.values)[i])
    {
      AttributeSound(l.values[i]);
      AttributePrinted(l.values[i]);
    }
    BytesPartSound("name", l.name);
    ArraySound("values", AttributesParts(l.values));
  }

  lemma TypeSound(t: AttributeType)
    ensures AllSound(TypeParts(t))
  {
    hide Sound, BytesPart, ArrayPart, ListParts, WellPrinted;
    forall i | 0 <= i < |t.lists|
      ensures AllSound(ListsParts(t.lists)[i]) && WellPrinted(ListsParts(t.lists)[i])
    {
      ListSound(t.lists[i]);
      ListPrinted(t.lists[i]);
    }
    BytesPartSound("name", t.name);
    ArraySound("lists", ListsParts(t.lists));
  }

  lemma AttributesSound(types: seq<AttributeType>)
    ensures Sound(ArrayPart("official_attributes", TypesParts(types)))
  {
    hide Sound, ArrayPart, TypeParts, WellPrinted;
    forall i | 0 <= i < |types|
      ensures AllSound(TypesParts(types)[i]) && WellPrinted(TypesParts(types)[i])
    {
      TypeSound(types[i]);
      TypePrinted(types[i]);
    }
    ArraySound("official_attributes", TypesParts(types));
  }

  lemma TextSound(name: string, b: bytes)
    requires PlainName(name)
    ensures Sound(TextPart(name, b))
  {
    hide JsonString;
  }

  lemma FlagSound(name: string, b: bool)
    requires PlainName(name)
    ensures Sound(FlagPart(name, b))
  {
    hide Readback.Word;
  }

  lemma ModuleSound(d: Detail)
    requires d.Description?
    ensures AllSound(ModuleParts(d))
  {
    hide Sound, ObjectPart, CodedParts, TextPart, BytesPart, Text, ClassificationName;
    TextSound("classification", Text(ClassificationName(d.classification)));
    BytesPartSound("description", d.description);
    CodedSound("direction", d.direction);
    BytesPartSound("driver", d.driver);
    CodedSound("encoding", d.encoding);
    BytesPartSound("language", d.language);
    CodedSound("markup", d.markup);
    BytesPartSound("name", d.name);
    BytesPartSound("sword_type", d.swordType);
  }

  lemma ContextSound(context: seq<Context>)
    requires FreeNames(context)
    ensures AllSound(ContextParts(context))
  {
    hide Sound, NumberPart, BytesPart, AsciiText;
    forall i | 0 <= i < |context|
      ensures Sound(ContextParts(context)[i])
    {
      assert FreeName(context[i].name);
      if context[i].Count? {
        NumberSound(context[i].name, context[i].n);
      } else {
        BytesPartSound(context[i].name, context[i].b);
      }
    }
  }

  lemma DetailSound(r: Record, d: Detail)
    requires Fits(r, d)
    ensures AllSound(DetailParts(d))
  {
    hide Sound, TextPart, BytesPart, Text, ModuleParts, ArrayPart, TypesParts, ContextParts, FreeNames, Utf8.Valid;
    match d
    case Nothing =>
    case Versions(producer, sword) =>
      TextSound("producer_version", producer);
      TextSound("sword_version", sword);
    case Description(_, _, _, _, _, _, _, _, _) => ModuleSound(d);
    case Around(attributes, _) => AttributesSound(attributes);
    case Message(message, context) =>
      BytesPartSound("message", message);
      ContextSound(context);
  }

  lemma NamesSound(scope: Scope, names: VerseNames)
    ensures AllSound(NameParts(scope, names))
  {
    hide Sound, OptionalPart, TextPart, BytesPart, Text, IntroScope;
    if scope.VerseKey? {
      OptionalPartSound("book_abbreviation", if scope.book == 0 then None else Some(names.abbreviation));
      OptionalPartSound("book_name", if scope.book == 0 then None else Some(names.bookName));
      TextSound("intro_scope", Text(IntroScope(scope)));
      BytesPartSound("osis_reference", names.osis);
      BytesPartSound("versification", names.versification);
    }
  }

  lemma ScopePartsSound(scope: Scope)
    ensures AllSound(ScopeParts(scope))
  {
    hide Sound, NumberPart, TextPart, Text;
    if scope.SwordKey? {
      NumberSound("index", scope.index);
      TextSound("type", Text("sword_key"));
    } else {
      NumberSound("book", scope.book);
      NumberSound("chapter", scope.chapter);
      NumberSound("index", scope.index);
      NumberSound("suffix", scope.suffix);
      NumberSound("testament", scope.testament);
      TextSound("type", Text("verse_key"));
      NumberSound("verse", scope.verse);
    }
  }

  lemma ScopeSound(scope: Scope, more: Extras)
    requires SoundMap(more.values)
    ensures Sound(ScopePart(scope, more))
  {
    hide SoundMap, Embedded, AllSound, WellPrinted, PartValues, PartFields, ScopeParts, ObjectText, ObjectOf;
    ScopePartsSound(scope);
    ScopePartsPrinted(scope);
    SoundParts(ScopeParts(scope));
    SoundMerged(more.values, PartValues(ScopeParts(scope)));
    SoundObject(more.values + PartValues(ScopeParts(scope)));
  }

  lemma SegmentsPartSound(segments: seq<Annotation.Segment>)
    ensures Sound(SegmentsPart(segments))
  {
    hide SegmentTexts, SegmentValues, ArrayText, Embedded;
    SegmentsSound(segments);
  }

  lemma EntrySound(e: EntryData, scope: Extras)
    requires SoundMap(scope.values)
    ensures AllSound(EntryParts(e, scope))
  {
    hide Sound, NumberPart, FlagPart, BytesPart, OptionalPart, SegmentsPart, ScopePart, SoundMap;
    SegmentsPartSound(e.segments);
    BytesPartSound("key", e.key);
    OptionalPartSound("normalized_raw", e.normalizedRaw);
    OptionalPartSound("normalized_stripped", e.normalizedStripped);
    NumberSound("ordinal", e.ordinal);
    FlagSound("projections_available", e.projections.Some?);
    BytesPartSound("raw", e.raw);
    OptionalPartSound("rendered_default", if e.projections.Some? then Some(e.projections.value.rendered) else None);
    OptionalPartSound("stripped", if e.projections.Some? then Some(e.projections.value.stripped) else None);
    ScopeSound(e.scope, scope);
  }

  lemma HeaderSound(command: Command, chunkSize: Option<int>)
    ensures AllSound(HeaderParts(command, chunkSize))
  {
    hide Sound, NumberPart, TextPart, FlagPart, Text, CommandName;
    TextSound("command", Text(CommandName(command)));
    TextSound("contract", Text(CONTRACT));
    NumberSound("contract_version", 1);
    FlagSound("deterministic", true);
    TextSound("producer", Text(PRODUCER));
    if chunkSize.Some? {
      NumberSound("artifact_chunk_size", chunkSize.value);
    }
  }

  lemma BeginSound(r: Record)
    requires r.ArtifactBegin?
    ensures AllSound(BeginParts(r))
  {
    hide Sound, NumberPart, TextPart, BytesPart, Text, FileTypeName;
    NumberSound("artifact_id", r.id);
    TextSound("file_type", Text(FileTypeName(r.fileType)));
    NumberSound("mode", r.mode);
    BytesPartSound("path", r.path);
    TextSound("role", r.role);
    if r.target.Some? {
      BytesPartSound("target", r.target.value);
    }
    if r.sizeExpected.Some? {
      NumberSound("size_expected", r.sizeExpected.value);
    }
  }

  lemma EndSound(r: Record)
    requires r.ArtifactEnd?
    ensures AllSound(EndParts(r))
  {
    hide Sound, NumberPart, TextPart, FlagPart;
    NumberSound("artifact_id", r.id);
    TextSound("sha256", r.sha256);
    NumberSound("size", r.size);
    if r.stable.Some? {
      FlagSound("stable", r.stable.value);
    }
  }

  lemma OtherSound(r: Record, scope: Extras)
    requires r.ConfigSource? || r.ConfigEntry? || r.ArtifactChunk? || r.Diagnostic? || r.Module?
    ensures AllSound(PartsOf(r, scope))
  {
    hide Sound, NumberPart, TextPart, BytesPart, Text, SeverityName, HeaderParts, EntryParts, BeginParts, EndParts;
    match r
    case ConfigSource(ordinal, path, raw) =>
      NumberSound("ordinal", ordinal);
      BytesPartSound("path", path);
      BytesPartSound("raw", raw);
    case ConfigEntry(ordinal, name, value) =>
      BytesPartSound("name", name);
      NumberSound("ordinal", ordinal);
      BytesPartSound("value", value);
    case ArtifactChunk(id, index, data) =>
      NumberSound("artifact_id", id);
      BytesPartSound("data", data);
      NumberSound("index", index);
    case Diagnostic(severity, code) =>
      TextSound("code", code);
      TextSound("severity", Text(SeverityName(severity)));
    case Module =>
  }

  lemma RecordSound(r: Record, scope: Extras)
    requires SoundMap(scope.values) && !r.Footer?
    ensures AllSound(PartsOf(r, scope))
  {
    hide AllSound, SoundMap, HeaderParts, EntryParts, BeginParts, EndParts, NumberPart, BytesPart, TextPart, Text,
      SeverityName;
    match r
    case Header(command, chunkSize) => HeaderSound(command, chunkSize);
    case Entry(e) => EntrySound(e, scope);
    case ArtifactBegin(_, _, _, _, _, _, _) => BeginSound(r);
    case ArtifactEnd(_, _, _, _) => EndSound(r);
    case ConfigSource(_, _, _) => OtherSound(r, scope);
    case ConfigEntry(_, _, _) => OtherSound(r, scope);
    case ArtifactChunk(_, _, _) => OtherSound(r, scope);
    case Diagnostic(_, _) => OtherSound(r, scope);
    case Module => OtherSound(r, scope);
  }

  lemma ScopeExtrasSound(r: Record, d: Detail)
    ensures SoundMap(ScopeExtras(r, d).values)
  {
    hide SoundMap, AllSound, WellPrinted, NameParts;
    SoundNothing();
    if r.Entry? && d.Around? {
      NamesSound(r.entry.scope, d.names);
      NamesPrinted(r.entry.scope, d.names);
      SoundParts(NameParts(r.entry.scope, d.names));
    }
  }

  lemma SoundNothing()
    ensures SoundMap(PartValues([]))
  {
    hide Text;
  }

  lemma SoundAppend(a: seq<Part>, b: seq<Part>)
    requires AllSound(a) && AllSound(b)
    ensures AllSound(a + b)
  {
    hide Sound;
  }

  lemma Numbered(values: map<bytes, Json>, sequence: nat, t: RecordType)
    requires SoundMap(values)
    ensures SoundMap(values[Writer.SEQUENCE := Integer(sequence)][Writer.TYPE := Str(Writer.TypeName(t))])
  {
    assert |BASE64| == 6 && |ENCODING| == 8 && |Writer.SEQUENCE| == 8 && |Writer.TYPE| == 4;
    hide Text, Writer.TypeName;
  }

  /** No byte value in a printed line is a broken one. */
  lemma FullEmbedded(r: Record, d: Detail, sequence: nat)
    requires Fits(r, d) && Printable(r)
    ensures Embedded(Object(FullMembers(r, d, sequence)))
  {
    hide SoundMap, AllSound, WellPrinted, DetailParts, PartsOf, ScopeExtras, Fits, Printable, Embedded, Writer.TypeName,
      PartValues, ObjectOf, TypeOf;
    PrintableNoFooter(r);
    DetailSound(r, d);
    ScopeExtrasSound(r, d);
    RecordSound(r, ScopeExtras(r, d));
    SoundAppend(DetailParts(d), PartsOf(r, ScopeExtras(r, d)));
    FullPrinted(r, d);
    var values := PartValues(AllParts(r, d));
    SoundParts(AllParts(r, d));
    assert map[] + values == values;
    Numbered(values, sequence, TypeOf(r));
    SoundObject(values[Writer.SEQUENCE := Integer(sequence)][Writer.TYPE := Str(Writer.TypeName(TypeOf(r)))]);
  }

  // All checks.

  lemma VersionsShaped(d: Detail, m: seq<Member>)
    requires d.Versions? && Holds(m, DetailParts(d))
    ensures HeaderShape(m)
  {
    hide Get, JsonString;
    var parts := DetailParts(d);
    assert parts[0].name == "producer_version" && parts[1].name == "sword_version";
  }

  lemma MessageShaped(d: Detail, m: seq<Member>)
    requires d.Message? && Holds(m, DetailParts(d))
    ensures IsBytes(Get(m, "message"))
  {
    hide Get, EnvelopeText, ByteObject, ContextParts, IsBytes;
    var parts := DetailParts(d);
    assert parts[0] == BytesPart("message", d.message);
    BytesShape(d.message);
  }

  lemma EntryShaped(e: EntryData, d: Detail, m: seq<Member>)
    requires d.Around? && Holds(m, DetailParts(d)) && Holds(m, EntryParts(e, ScopeExtras(Entry(e), d)))
    ensures AttributesShape(Get(m, "official_attributes")) && ScopeShape(Get(m, "scope"))
  {
    hide Get, TypesParts, AttributesShape, ScopeShape, ElementTexts, ElementValues, ArrayText, NameParts, ScopeParts,
      PartFields, PartValues, ObjectText, SegmentsPart, BytesPart, OptionalPart, NumberPart, FlagPart, ObjectOf;
    var parts, own := DetailParts(d), EntryParts(e, ScopeExtras(Entry(e), d));
    assert parts[0] == ArrayPart("official_attributes", TypesParts(d.attributes));
    assert own[9] == ScopePart(e.scope, ScopeExtras(Entry(e), d));
    AttributesShaped(d.attributes);
    ScopeShaped(e.scope, d.names);
    ScopeValue(e.scope, d.names);
  }

  lemma ScopeValue(scope: Scope, names: VerseNames)
    ensures ScopePart(scope, ExtrasOf(NameParts(scope, names))).value == Object(ScopeMembers(scope, names))
  {
    hide PartFields, PartValues, ObjectText, NameParts, ScopeParts, SortedNames;
  }

  lemma ShapedBy(r: Record, d: Detail, m: seq<Member>)
    requires Fits(r, d) && !r.Footer? && Holds(m, DetailParts(d)) && Embedded(Object(m))
    requires r.Entry? ==> Holds(m, EntryParts(r.entry, ScopeExtras(r, d)))
    ensures Shaped(TypeOf(r), m)
  {
    hide Holds, DetailParts, EntryParts, ModuleParts, ScopeExtras, Embedded, HeaderShape, ModuleShape, AttributesShape,
      ScopeShape, IsBytes, FreeNames, Utf8.Valid;
    DetailNames(d);
    match r
    case Header(_, _) => VersionsShaped(d, m);
    case Module => ModuleShaped(d, m);
    case Entry(e) => EntryShaped(e, d, m);
    case Diagnostic(_, _) => MessageShaped(d, m);
    case _ =>
  }

  /** Whatever the producer prints of a record passes every check on which nothing else depends. */
  lemma FullShaped(r: Record, d: Detail, sequence: nat)
    requires Fits(r, d) && Printable(r)
    ensures Shaped(TypeOf(r), FullMembers(r, d, sequence))
  {
    hide Holds, AllParts, DetailParts, ScopeExtras, FullMembers, EntryParts, PartsOf, Embedded, Shaped, Printable, Fits,
      TypeOf;
    PrintableNoFooter(r);
    FullHeld(r, d, sequence);
    FullEmbedded(r, d, sequence);
    DetailHeld(r, d, sequence);
    if r.Entry? {
      EntryPartsOf(r.entry, ScopeExtras(r, d));
    }
    ShapedBy(r, d, FullMembers(r, d, sequence));
  }

  lemma EntryPartsOf(e: EntryData, scope: Extras)
    ensures PartsOf(Entry(e), scope) == EntryParts(e, scope)
  {
    hide EntryParts;
  }

  lemma DetailHeld(r: Record, d: Detail, sequence: nat)
    requires Holds(FullMembers(r, d, sequence), AllParts(r, d))
    ensures Holds(FullMembers(r, d, sequence), DetailParts(d))
    ensures Holds(FullMembers(r, d, sequence), PartsOf(r, ScopeExtras(r, d)))
  {
    hide Holds, DetailParts, PartsOf, ScopeExtras, FullMembers;
    HeldParts(FullMembers(r, d, sequence), DetailParts(d), PartsOf(r, ScopeExtras(r, d)));
  }

  lemma DetailHarmless(r: Record, d: Detail)
    requires Fits(r, d)
    ensures Harmless(r, ExtrasOf(DetailParts(d)))
  {
    hide DetailParts, PartFields, Good, Text, AsciiText, Utf8.Valid;
    DetailPrinted(r, d);
    DetailNames(d);
    VersionsAscii();
    if r.Header? {
      var parts := DetailParts(d);
      assert parts[0].name == PartNames(parts)[0] && parts[1].name == PartNames(parts)[1];
      PartsOnly(parts, "artifact_chunk_size");
    }
    if r.ArtifactBegin? || r.ArtifactEnd? {
      assert PartValues([]) == map[];
    }
  }

  lemma VersionsAscii()
    ensures AsciiText("artifact_chunk_size")
  {
  }

  /** Whatever the producer prints of a record is one line, and the validator reads the record from it. */
  lemma FullLineRead(r: Record, d: Detail, sequence: nat) returns (text: bytes)
    requires Fits(r, d) && Printable(r)
    ensures Writer.LineText(TypeOf(r), sequence, FullFields(r, d)) == text + [LF]
    ensures LF !in text && text != []
    ensures LineFrom(text) == Some(Line(text + [LF], sequence, r))
  {
    hide Fits, Printable, DetailParts, ScopeExtras, Shaped, Harmless, Proper, PartsOf, LineFrom, Writer.LineText,
      TypeOf, PartFields, PartValues, LineMembers;
    FullShaped(r, d, sequence);
    FullIs(r, d, sequence);
    ExtrasProper(r, d);
    DetailHarmless(r, d);
    text := RecordLines.LineRead(r, ExtrasOf(DetailParts(d)), ScopeExtras(r, d), sequence);
  }
}
