/** Printed record lines, read back: every record, the footer, and whole streams. */
module RecordLines {
  import opened Bytes
  import opened Records
  import opened JsonText
  import opened JsonParse
  import opened JsonLines
  import opened ByteValue
  import opened RecordText
  import opened RecordCodec
  import opened RecordReading
  import opened RecordTrip
  import opened Writer
  import Readback
  import Utf8

  // Names.

  lemma EntryDistinct(e: EntryData, scope: Extras)
    ensures DistinctParts(EntryParts(e, scope)) && Unnumbered(EntryParts(e, scope))
  {
    EntryNames(e, scope);
    hide EntryParts;
  }

  lemma BeginDistinct(r: Record)
    requires r.ArtifactBegin?
    ensures DistinctParts(BeginParts(r)) && Unnumbered(BeginParts(r))
  {
    BeginNames(r);
    BaseDifferent();
    hide BeginParts, AllDifferent;
    var names := BaseNames();
    assert PartNames(BeginParts(r)) ==
           names + (if r.target.Some? then ["target"] else [])
             + (if r.sizeExpected.Some? then ["size_expected"] else []);
    hide BaseNames;
    WithOptional(names, r.target.Some?, r.sizeExpected.Some?);
  }

  function BaseNames(): seq<string>
  {
    ["artifact_id", "file_type", "mode", "path", "role"]
  }

  lemma BaseDifferent()
    ensures AllDifferent(BaseNames()) && "target" !in BaseNames() && "size_expected" !in BaseNames()
    ensures "sequence" !in BaseNames() && "type" !in BaseNames()
  {
  }

  lemma WithOptional(names: seq<string>, target: bool, expected: bool)
    requires AllDifferent(names) && "target" !in names && "size_expected" !in names
    requires "sequence" !in names && "type" !in names
    ensures var all := names + (if target then ["target"] else []) + (if expected then ["size_expected"] else []);
            AllDifferent(all) && "sequence" !in all && "type" !in all
  {
    hide AllDifferent;
    var more := names + if target then ["target"] else [];
    assert names + [] == names && more + [] == more;
    OneMoreName(names, "target");
    OneMoreName(more, "size_expected");
  }

  lemma OneMoreName(names: seq<string>, name: string)
    requires AllDifferent(names) && name !in names
    ensures AllDifferent(names + [name])
  {
  }

  lemma HeaderDistinct(command: Command, chunkSize: Option<int>)
    ensures DistinctParts(HeaderParts(command, chunkSize)) && Unnumbered(HeaderParts(command, chunkSize))
    ensures chunkSize.None? ==> "artifact_chunk_size" !in PartNames(HeaderParts(command, chunkSize))
  {
    HeaderNames(command, chunkSize);
    hide HeaderParts;
  }

  lemma EndDistinct(r: Record)
    requires r.ArtifactEnd?
    ensures DistinctParts(EndParts(r)) && Unnumbered(EndParts(r))
    ensures r.stable.None? ==> "stable" !in PartNames(EndParts(r))
  {
    EndNames(r);
    hide EndParts;
  }

  lemma ConfigurationDistinct(r: Record, scope: Extras)
    requires r.ConfigSource? || r.ConfigEntry?
    ensures DistinctParts(PartsOf(r, scope)) && Unnumbered(PartsOf(r, scope))
  {
    hide HeaderParts, EntryParts, BeginParts, EndParts, Signed, EnvelopeText, ByteObject;
    assert PartNames(PartsOf(r, scope)) ==
           if r.ConfigSource? then ["ordinal", "path", "raw"] else ["name", "ordinal", "value"];
    hide PartsOf;
  }

  lemma ChunkDistinct(r: Record, scope: Extras)
    requires r.ArtifactChunk? || r.Diagnostic? || r.Module?
    ensures DistinctParts(PartsOf(r, scope)) && Unnumbered(PartsOf(r, scope))
  {
    hide HeaderParts, EntryParts, BeginParts, EndParts, Signed, Text, JsonString, EnvelopeText, ByteObject,
      SeverityName;
    assert PartNames(PartsOf(r, scope)) ==
           if r.ArtifactChunk? then ["artifact_id", "data", "index"] else if r.Module? then []
             else ["code", "severity"];
    hide PartsOf;
  }

  lemma RecordDistinct(r: Record, scope: Extras)
    requires !r.Footer?
    ensures DistinctParts(PartsOf(r, scope)) && Unnumbered(PartsOf(r, scope))
  {
    hide HeaderParts, EntryParts, BeginParts, EndParts, DistinctParts, Unnumbered, NumberPart, BytesPart, TextPart,
      Text, SeverityName;
    match r
    case Header(command, chunkSize) => HeaderDistinct(command, chunkSize);
    case Entry(e) => EntryDistinct(e, scope);
    case ArtifactBegin(_, _, _, _, _, _, _) => BeginDistinct(r);
    case ArtifactEnd(_, _, _, _) => EndDistinct(r);
    case ConfigSource(_, _, _) => ConfigurationDistinct(r, scope);
    case ConfigEntry(_, _, _) => ConfigurationDistinct(r, scope);
    case ArtifactChunk(_, _, _) => ChunkDistinct(r, scope);
    case Diagnostic(_, _) => ChunkDistinct(r, scope);
    case Module => ChunkDistinct(r, scope);
  }

  // One line.

  lemma {:induction false} TypeRead(t: RecordType, n: nat)
    requires Readback.Position(t) < n <= 10
    ensures TypeFrom(TypeName(t), n) == Some(t)
  {
    hide TypeName, TypeAt;
    Readback.TypeNamesDiffer(TypeAt(n - 1), t);
    if TypeAt(n - 1) != t {
      TypeRead(t, n - 1);
    }
  }

  lemma LineLacksOptional(r: Record, x: Extras, scope: Extras, sequence: nat)
    requires Printable(r) && Proper(scope) && Harmless(r, x)
    ensures Lacks(r, LineMembers(TypeOf(r), sequence, x.values, PartsOf(r, scope)))
  {
    hide HeaderParts, EntryParts, BeginParts, EndParts, LineMembers, Get, Text, Good, Proper, PartNames, Utf8.Valid,
      NumberPart, BytesPart, TextPart, SeverityName;
    RecordPrinted(r, scope);
    var parts := PartsOf(r, scope);
    if r.Header? && r.chunkSize.None? {
      HeaderDistinct(r.command, r.chunkSize);
      LineLacks(TypeOf(r), sequence, x.values, parts, "artifact_chunk_size");
    }
    if r.ArtifactEnd? && r.stable.None? {
      EndDistinct(r);
      LineLacks(TypeOf(r), sequence, x.values, parts, "stable");
    }
  }

  /** What reading the members of a line comes to. */
  lemma MembersRead(t: RecordType, sequence: nat, more: map<bytes, Json>, parts: seq<Part>, text: bytes, record: Record)
    requires ParseText(text) == Some(Object(LineMembers(t, sequence, more, parts)))
    requires RecordFrom(t, LineMembers(t, sequence, more, parts)) == Some(record)
    requires Shaped(t, LineMembers(t, sequence, more, parts))
    ensures LineFrom(text) == Some(Line(text + [LF], sequence, record))
  {
    hide ParseText, LineMembers, RecordFrom, Shaped, Get, TypeFrom, TypeName;
    LineNumbered(t, sequence, more, parts);
    TypeRead(t, 10);
  }

  /** A printed record is one line, and the validator reads the record from it. */
  lemma LineRead(r: Record, x: Extras, scope: Extras, sequence: nat) returns (text: bytes)
    requires Printable(r) && Proper(x) && Proper(scope) && Harmless(r, x)
    requires Shaped(TypeOf(r), LineMembers(TypeOf(r), sequence, x.values, PartsOf(r, scope)))
    ensures LineText(TypeOf(r), sequence, RecordFields(r, x, scope)) == text + [LF]
    ensures LF !in text && text != []
    ensures LineFrom(text) == Some(Line(text + [LF], sequence, r))
  {
    hide Good, DistinctParts, Unnumbered, PartsOf, PartFields, PartValues, LineMembers, RecordFrom, Shaped, Lacks,
      Holds, LineFrom, LineText, ParseText, Printed, Harmless, Printable, AllPrinted;
    var parts := PartsOf(r, scope);
    RecordPrinted(r, scope);
    NotFooter(r);
    RecordDistinct(r, scope);
    PartsPrinted(parts);
    Merged(x.fields, x.values, PartFields(parts), PartValues(parts));
    text := Readback.LinePrinted(TypeOf(r), sequence, RecordFields(r, x, scope), RecordValues(r, x, scope));
    LineObject(TypeOf(r), sequence, x.values, parts);
    PrintedReads(text, Readback.RecordObject(TypeOf(r), sequence, RecordValues(r, x, scope)));
    Readback.PrintedLine(text, Readback.RecordObject(TypeOf(r), sequence, RecordValues(r, x, scope)));
    LineHolds(TypeOf(r), sequence, x.values, parts);
    LineLacksOptional(r, x, scope, sequence);
    RecordRead(r, scope, LineMembers(TypeOf(r), sequence, x.values, parts));
    MembersRead(TypeOf(r), sequence, x.values, parts, text, r);
  }

  lemma NotFooter(r: Record)
    requires Printable(r)
    ensures !r.Footer?
  {
  }

  lemma LineObject(t: RecordType, sequence: nat, more: map<bytes, Json>, parts: seq<Part>)
    ensures Readback.RecordObject(t, sequence, more + PartValues(parts)) ==
            Object(LineMembers(t, sequence, more, parts))
  {
    hide PartValues, TypeName;
  }
}
