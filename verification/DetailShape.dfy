/** Whatever the producer prints of a record passes the checks of the validator on which nothing else depends. */
module DetailShape {
  import opened Bytes
  import opened Records
  import opened JsonText
  import opened JsonParse
  import opened ByteValue
  import opened RecordText
  import opened RecordCodec
  import opened RecordDetail
  import opened RecordReading
  import opened RecordTrip
  import opened RecordLines
  import Utf8
  import Writer

  // All parts of a record.

  function AllParts(r: Record, d: Detail): seq<Part>
  {
    DetailParts(d) + PartsOf(r, ScopeExtras(r, d))
  }

  /** The members of the line of a record. */
  function FullMembers(r: Record, d: Detail, sequence: nat): seq<Member>
  {
    LineMembers(TypeOf(r), sequence, map[], AllParts(r, d))
  }

  lemma {:induction false} ValuesAppend(a: seq<Part>, b: seq<Part>)
    ensures PartValues(a + b) == PartValues(a) + PartValues(b)
    decreases |b|
  {
    hide Text;
    if b == [] {
      assert a + b == a;
    } else {
      var n := |b| - 1;
      assert (a + b)[..|a + b| - 1] == a + b[..n] && (a + b)[|a + b| - 1] == b[n];
      ValuesAppend(a, b[..n]);
    }
  }

  lemma {:induction false} FieldsAppend(a: seq<Part>, b: seq<Part>)
    ensures PartFields(a + b) == PartFields(a) + PartFields(b)
    decreases |b|
  {
    hide Text;
    if b == [] {
      assert a + b == a;
    } else {
      var n := |b| - 1;
      assert (a + b)[..|a + b| - 1] == a + b[..n] && (a + b)[|a + b| - 1] == b[n];
      FieldsAppend(a, b[..n]);
    }
  }

  lemma FullIs(r: Record, d: Detail, sequence: nat)
    ensures LineMembers(TypeOf(r), sequence, PartValues(DetailParts(d)), PartsOf(r, ScopeExtras(r, d)))
            == FullMembers(r, d, sequence)
  {
    hide PartValues, DetailParts, PartsOf, ScopeExtras, MembersIn, Writer.TypeName, TypeOf;
    ValuesAppend(DetailParts(d), PartsOf(r, ScopeExtras(r, d)));
    var all := PartValues(AllParts(r, d));
    assert map[] + all == all;
  }

  // Names.

  lemma NamesAppend(a: seq<Part>, b: seq<Part>)
    ensures PartNames(a + b) == PartNames(a) + PartNames(b)
  {
  }

  lemma ModuleNames(d: Detail)
    requires d.Description?
    ensures PartNames(ModuleParts(d)) ==
            ["classification", "description", "direction", "driver", "encoding", "language", "markup", "name",
             "sword_type"]
  {
    hide Signed, JsonString, Text, EnvelopeText, ByteObject, ClassificationName, CodedParts, ObjectText, ObjectOf,
      PartFields, PartValues;
  }

  predicate Fresh(names: seq<string>)
  {
    AllDifferent(names) && "sequence" !in names && "type" !in names
  }

  lemma HeaderFresh(chunk: bool)
    ensures Fresh(["producer_version", "sword_version"]
                  + (["command", "contract", "contract_version", "deterministic", "producer"]
                     + if chunk then ["artifact_chunk_size"] else []))
  {
    var names := ["producer_version", "sword_version", "command", "contract", "contract_version", "deterministic",
                  "producer", "artifact_chunk_size"];
    assert Fresh(names);
    if chunk {
      assert ["producer_version", "sword_version"]
             + (["command", "contract", "contract_version", "deterministic", "producer"] + ["artifact_chunk_size"]) ==
               names;
    } else {
      assert ["producer_version", "sword_version"]
             + (["command", "contract", "contract_version", "deterministic", "producer"] + []) == names[..7];
      hide *;
      FreshPrefix(names, 7);
    }
  }

  lemma FreshPrefix(names: seq<string>, n: nat)
    requires Fresh(names) && n <= |names|
    ensures Fresh(names[..n])
  {
  }

  lemma EntryFresh()
    ensures Fresh(["official_attributes"]
                  + ["annotation_segments", "key", "normalized_raw", "normalized_stripped", "ordinal",
                     "projections_available", "raw", "rendered_default", "stripped", "scope"])
  {
    var names := ["official_attributes", "annotation_segments", "key", "normalized_raw", "normalized_stripped",
                  "ordinal", "projections_available", "raw", "rendered_default", "stripped", "scope"];
    assert Fresh(names);
    assert ["official_attributes"]
           + ["annotation_segments", "key", "normalized_raw", "normalized_stripped", "ordinal",
              "projections_available", "raw", "rendered_default", "stripped", "scope"] == names;
  }

  lemma ModuleFresh()
    ensures Fresh(["classification", "description", "direction", "driver", "encoding", "language", "markup", "name",
                   "sword_type"])
  {
  }

  lemma ContextNames(context: seq<Context>)
    ensures forall i :: 0 <= i < |context| ==> PartNames(ContextParts(context))[i] == context[i].name
  {
    hide Signed, EnvelopeText, ByteObject;
  }

  lemma DiagnosticFresh(context: seq<Context>)
    requires FreeNames(context)
    ensures Fresh(["message"] + PartNames(ContextParts(context)) + ["code", "severity"])
  {
    hide ContextParts, AsciiText;
    ContextNames(context);
    var names := PartNames(ContextParts(context));
    assert forall i :: 0 <= i < |context| ==> FreeName(context[i].name);
    assert AllDifferent(names) && "code" !in names && "severity" !in names && "message" !in names;
    assert "sequence" !in names && "type" !in names;
    var all := ["message"] + names + ["code", "severity"];
    forall i, j | 0 <= i < j < |all|
      ensures all[i] != all[j]
    {
    }
  }

  lemma DetailNames(d: Detail)
    ensures d.Nothing? ==> DetailParts(d) == []
    ensures d.Versions? ==> PartNames(DetailParts(d)) == ["producer_version", "sword_version"]
    ensures d.Description? ==> DetailParts(d) == ModuleParts(d)
    ensures d.Around? ==> PartNames(DetailParts(d)) == ["official_attributes"]
    ensures d.Message? ==> PartNames(DetailParts(d)) == ["message"] + PartNames(ContextParts(d.context))
  {
    hide JsonString, EnvelopeText, ByteObject, ModuleParts, TypesParts, ContextParts, ElementTexts, ElementValues,
      ArrayText;
  }

  lemma NamesFresh(parts: seq<Part>)
    requires Fresh(PartNames(parts))
    ensures DistinctParts(parts) && Unnumbered(parts)
  {
    hide AllDifferent;
  }

  lemma DiagnosticNames(r: Record, scope: Extras)
    requires r.Diagnostic?
    ensures PartNames(PartsOf(r, scope)) == ["code", "severity"]
  {
    hide JsonString, Text, SeverityName;
  }

  /** No two members have one name. */
  lemma FullDistinct(r: Record, d: Detail)
    requires Fits(r, d) && !r.Footer?
    ensures DistinctParts(AllParts(r, d)) && Unnumbered(AllParts(r, d))
  {
    hide DistinctParts, Unnumbered, DetailParts, HeaderParts, EntryParts, BeginParts, EndParts, ModuleParts,
      ScopeExtras, Fresh, FreeNames, Utf8.Valid, NumberPart, BytesPart, TextPart, Text, SeverityName, ContextParts;
    var scope := ScopeExtras(r, d);
    NamesAppend(DetailParts(d), PartsOf(r, scope));
    DetailNames(d);
    match r {
      case Header(command, chunkSize) =>
        HeaderNames(command, chunkSize);
        HeaderFresh(chunkSize.Some?);
        NamesFresh(AllParts(r, d));
      case Module =>
        ModuleNames(d);
        ModuleFresh();
        assert ModuleParts(d) + [] == ModuleParts(d);
        NamesFresh(AllParts(r, d));
      case Entry(e) =>
        EntryNames(e, scope);
        EntryFresh();
        NamesFresh(AllParts(r, d));
      case Diagnostic(_, _) =>
        DiagnosticNames(r, scope);
        DiagnosticFresh(d.context);
        NamesFresh(AllParts(r, d));
      case _ =>
        RecordDistinct(r, scope);
        NothingBefore(PartsOf(r, scope));
    }
  }

  lemma NothingBefore(parts: seq<Part>)
    ensures [] + parts == parts
  {
  }

  lemma FullPrinted(r: Record, d: Detail)
    requires Fits(r, d) && Printable(r)
    ensures WellPrinted(AllParts(r, d))
  {
    hide Good, DetailParts, PartsOf, Fits, Printable, Proper, ScopeExtras, ExtrasOf;
    DetailPrinted(r, d);
    ExtrasProper(r, d);
    RecordPrinted(r, ScopeExtras(r, d));
  }

  // Shapes.

  lemma FullHeld(r: Record, d: Detail, sequence: nat)
    requires Fits(r, d) && Printable(r)
    ensures Holds(FullMembers(r, d, sequence), AllParts(r, d))
  {
    hide Good, AllParts, Fits, Printable, LineMembers, DistinctParts, Unnumbered;
    FullPrinted(r, d);
    PrintableNoFooter(r);
    FullDistinct(r, d);
    LineHolds(TypeOf(r), sequence, map[], AllParts(r, d));
  }

  lemma PrintableNoFooter(r: Record)
    requires Printable(r)
    ensures !r.Footer?
  {
  }

  lemma HeldParts(m: seq<Member>, a: seq<Part>, b: seq<Part>)
    requires Holds(m, a + b)
    ensures Holds(m, a) && Holds(m, b)
  {
    hide Get;
    assert forall i :: 0 <= i < |a| ==> (a + b)[i] == a[i];
    assert forall i :: 0 <= i < |b| ==> (a + b)[|a| + i] == b[i];
  }

  lemma ObjectHeld(parts: seq<Part>)
    requires WellPrinted(parts) && DistinctParts(parts)
    ensures ObjectOf(PartValues(parts)).Object? && Holds(ObjectOf(PartValues(parts)).members, parts)
  {
    hide Good, DistinctParts, PartValues, Holds;
    PartsHeld(parts, map[]);
    assert map[] + PartValues(parts) == PartValues(parts);
  }

  lemma CodedShape(c: Coded)
    ensures IsEnum(Some(ObjectOf(PartValues(CodedParts(c)))))
  {
    hide Signed, JsonString, Text, Get, PartValues, WellPrinted;
    CodedPrinted(c);
    var parts := CodedParts(c);
    assert PartNames(parts) == ["code", "name"];
    ObjectHeld(parts);
    assert parts[0].name == "code" && parts[1].name == "name";
  }

  lemma ClassificationShape(c: Classification)
    ensures IsClassification(Some(Str(Text(ClassificationName(c)))))
  {
    hide Text;
  }

  lemma ModuleShaped(d: Detail, m: seq<Member>)
    requires d.Description? && Holds(m, ModuleParts(d))
    ensures ModuleShape(m)
  {
    hide Get, IsEnum, IsBytes, IsClassification, EnvelopeText, ByteObject, JsonString, Text, ClassificationName,
      CodedParts, PartValues, PartFields, ObjectText, ObjectOf;
    var parts := ModuleParts(d);
    assert parts[0].name == "classification" && parts[1].name == "description" && parts[2].name == "direction";
    assert parts[3].name == "driver" && parts[4].name == "encoding" && parts[5].name == "language";
    assert parts[6].name == "markup" && parts[7].name == "name" && parts[8].name == "sword_type";
    ClassificationShape(d.classification);
    CodedShape(d.direction);
    CodedShape(d.encoding);
    CodedShape(d.markup);
    BytesShape(d.description);
    BytesShape(d.driver);
    BytesShape(d.language);
    BytesShape(d.name);
    BytesShape(d.swordType);
  }

  lemma BytesShape(b: bytes)
    ensures IsBytes(Some(ByteObject(b)))
  {
    hide ByteObject, ByteString;
    BytesRead(b);
  }

  lemma AttributeShaped(a: Attribute)
    ensures AttributeShape(ObjectOf(PartValues(AttributeParts(a))))
  {
    hide Get, IsBytes, EnvelopeText, ByteObject, PartValues, WellPrinted, ObjectOf;
    AttributePrinted(a);
    var parts := AttributeParts(a);
    assert PartNames(parts) == ["name", "value"];
    ObjectHeld(parts);
    assert parts[0].name == "name" && parts[1].name == "value";
    BytesShape(a.name);
    BytesShape(a.value);
  }

  lemma ListShaped(l: AttributeList)
    ensures AttributeListShape(ObjectOf(PartValues(ListParts(l))))
  {
    hide Get, IsBytes, EnvelopeText, ByteObject, PartValues, WellPrinted, ObjectOf, AttributeShape, AttributeParts,
      ElementTexts, ArrayText;
    ListPrinted(l);
    var parts := ListParts(l);
    assert PartNames(parts) == ["name", "values"];
    ObjectHeld(parts);
    assert parts[0].name == "name" && parts[1].name == "values";
    BytesShape(l.name);
    forall i | 0 <= i < |l.values|
      ensures AttributeShape(ElementValues(AttributesParts(l.values))[i])
    {
      AttributeShaped(l.values[i]);
    }
  }

  lemma TypeShaped(t: AttributeType)
    ensures AttributeTypeShape(ObjectOf(PartValues(TypeParts(t))))
  {
    hide Get, IsBytes, EnvelopeText, ByteObject, PartValues, WellPrinted, ObjectOf, AttributeListShape, ListParts,
      ElementTexts, ArrayText;
    TypePrinted(t);
    var parts := TypeParts(t);
    assert PartNames(parts) == ["lists", "name"];
    ObjectHeld(parts);
    assert parts[0].name == "lists" && parts[1].name == "name";
    BytesShape(t.name);
    forall i | 0 <= i < |t.lists|
      ensures AttributeListShape(ElementValues(ListsParts(t.lists))[i])
    {
      ListShaped(t.lists[i]);
    }
  }

  lemma AttributesShaped(types: seq<AttributeType>)
    ensures AttributesShape(Some(Array(ElementValues(TypesParts(types)))))
  {
    hide AttributeTypeShape, TypeParts, PartValues, ObjectOf;
    forall i | 0 <= i < |types|
      ensures AttributeTypeShape(ElementValues(TypesParts(types))[i])
    {
      TypeShaped(types[i]);
    }
  }

  lemma IntroShape(scope: Scope)
    requires scope.VerseKey?
    ensures IsIntroScope(Some(Str(Text(IntroScope(scope)))))
  {
    hide Text;
  }

  lemma MaybeShape(b: Option<bytes>)
    ensures IsBytesOrNull(Some(OptionalValue(b)))
  {
    hide IsBytes, ByteObject;
    if b.Some? {
      BytesShape(b.value);
    }
  }

  /** The members of a printed scope. */
  function ScopeMembers(scope: Scope, names: VerseNames): seq<Member>
  {
    MembersIn(PartValues(NameParts(scope, names)) + PartValues(ScopeParts(scope)))
  }

  lemma ScopeDistinct(scope: Scope, names: VerseNames)
    ensures DistinctParts(NameParts(scope, names) + ScopeParts(scope))
  {
    hide Signed, JsonString, Text, EnvelopeText, ByteObject, OptionalText, OptionalValue, IntroScope, AllDifferent;
    var parts := NameParts(scope, names) + ScopeParts(scope);
    if scope.SwordKey? {
      assert PartNames(parts) == ["index", "type"];
    } else {
      assert PartNames(parts) == ["book_abbreviation", "book_name", "intro_scope", "osis_reference", "versification",
                                  "book", "chapter", "index", "suffix", "testament", "type", "verse"];
    }
    ScopeNamesDiffer();
  }

  lemma ScopeNamesDiffer()
    ensures AllDifferent(["index", "type"])
    ensures AllDifferent(["book_abbreviation", "book_name", "intro_scope", "osis_reference", "versification",
                          "book", "chapter", "index", "suffix", "testament", "type", "verse"])
  {
  }

  lemma ScopeHeld(scope: Scope, names: VerseNames)
    ensures Holds(ScopeMembers(scope, names), NameParts(scope, names))
            && Holds(ScopeMembers(scope, names), ScopeParts(scope))
  {
    hide Good, DistinctParts, PartValues, NameParts, ScopeParts, Holds, MembersIn;
    NamesPrinted(scope, names);
    ScopePartsPrinted(scope);
    ScopeDistinct(scope, names);
    var all := NameParts(scope, names) + ScopeParts(scope);
    ValuesAppend(NameParts(scope, names), ScopeParts(scope));
    assert map[] + PartValues(all) == PartValues(all);
    PartsHeld(all, map[]);
    HeldParts(ScopeMembers(scope, names), NameParts(scope, names), ScopeParts(scope));
  }

  lemma ScopeShaped(scope: Scope, names: VerseNames)
    ensures ScopeShape(Some(Object(ScopeMembers(scope, names))))
  {
    ScopeHeld(scope, names);
    NamesApart();
    hide Get, Signed, JsonString, Text, EnvelopeText, ByteObject, OptionalText, OptionalValue, IntroScope, IsIntroScope,
      IsBytes, IsBytesOrNull, ScopeMembers;
    var parts, base := NameParts(scope, names), ScopeParts(scope);
    if scope.SwordKey? {
      assert base[1].name == "type";
    } else {
      assert parts[0].name == "book_abbreviation" && parts[1].name == "book_name" && parts[2].name == "intro_scope";
      assert parts[3].name == "osis_reference" && parts[4].name == "versification";
      IntroShape(scope);
      MaybeShape(if scope.book == 0 then None else Some(names.abbreviation));
      MaybeShape(if scope.book == 0 then None else Some(names.bookName));
      BytesShape(names.osis);
      BytesShape(names.versification);
    }
  }
}
