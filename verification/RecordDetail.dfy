/** What the producer prints beside the members that carry a record: versions, module data, attributes, names,
    messages. */
module RecordDetail {
  import opened Bytes
  import opened Records
  import opened JsonText
  import opened JsonParse
  import opened JsonLines
  import opened ByteValue
  import opened RecordText
  import opened RecordCodec
  import Utf8

  datatype Classification = Bible | Commentary | DictionaryOrLexicon | GeneralBook | Devotional | Resource | Unknown

  function ClassificationName(c: Classification): string
  {
    match c
    case Bible => "bible"
    case Commentary => "commentary"
    case DictionaryOrLexicon => "dictionary_or_lexicon"
    case GeneralBook => "general_book"
    case Devotional => "devotional"
    case Resource => "resource"
    case Unknown => "unknown"
  }

  /** A character code of the library with the name the producer gives it. */
  datatype Coded = Coded(code: byte, name: string)

  datatype Attribute = Attribute(name: bytes, value: bytes)

  datatype AttributeList = AttributeList(name: bytes, values: seq<Attribute>)

  datatype AttributeType = AttributeType(name: bytes, lists: seq<AttributeList>)

  /** The names the library has for a verse. */
  datatype VerseNames = VerseNames(abbreviation: bytes, bookName: bytes, osis: bytes, versification: bytes)

  /** One member of the context of a diagnostic. */
  datatype Context = Count(name: string, n: int) | Octets(name: string, b: bytes)

  datatype Detail =
    | Nothing
    | Versions(producer: bytes, sword: bytes)
    | Description(classification: Classification, description: bytes, driver: bytes, language: bytes, name: bytes,
                  swordType: bytes, direction: Coded, encoding: Coded, markup: Coded)
    | Around(attributes: seq<AttributeType>, names: VerseNames)
    | Message(message: bytes, context: seq<Context>)

  /** The names of the members that a diagnostic has anyway, or that would change what they mean. */
  predicate FreeName(s: string)
  {
    AsciiText(s) && s != "code" && s != "message" && s != "severity" && s != "sequence" && s != "type" && s != "base64"
  }

  predicate FreeNames(context: seq<Context>)
  {
    && (forall i :: 0 <= i < |context| ==> FreeName(context[i].name))
    && forall i, j :: 0 <= i < j < |context| ==> context[i].name != context[j].name
  }

  /** The detail is one of this kind of record. */
  predicate Fits(r: Record, d: Detail)
  {
    match r
    case Header(_, _) => d.Versions? && Utf8.Valid(d.producer) && Utf8.Valid(d.sword)
    case Module => d.Description?
    case Entry(_) => d.Around?
    case Diagnostic(_, _) => d.Message? && FreeNames(d.context)
    case _ => d.Nothing?
  }

  // Parts.

  function ObjectPart(name: string, parts: seq<Part>): Part
  {
    Part(name, ObjectText(PartFields(parts)), ObjectOf(PartValues(parts)))
  }

  function CodedParts(c: Coded): seq<Part>
  {
    [NumberPart("code", c.code), TextPart("name", Text(c.name))]
  }

  function AttributeParts(a: Attribute): seq<Part>
  {
    [BytesPart("name", a.name), BytesPart("value", a.value)]
  }

  /** An array of objects, each made of parts. */
  function ArrayPart(name: string, elements: seq<seq<Part>>): Part
  {
    Part(name, ArrayText(ElementTexts(elements)), Array(ElementValues(elements)))
  }

  function ElementTexts(elements: seq<seq<Part>>): (r: seq<bytes>)
    ensures |r| == |elements|
  {
    seq(|elements|, i requires 0 <= i < |elements| => ObjectText(PartFields(elements[i])))
  }

  function ElementValues(elements: seq<seq<Part>>): (r: seq<Json>)
    ensures |r| == |elements|
  {
    seq(|elements|, i requires 0 <= i < |elements| => ObjectOf(PartValues(elements[i])))
  }

  function AttributesParts(values: seq<Attribute>): (r: seq<seq<Part>>)
    ensures |r| == |values|
  {
    seq(|values|, i requires 0 <= i < |values| => AttributeParts(values[i]))
  }

  function ListParts(l: AttributeList): seq<Part>
  {
    [BytesPart("name", l.name), ArrayPart("values", AttributesParts(l.values))]
  }

  function ListsParts(lists: seq<AttributeList>): (r: seq<seq<Part>>)
    ensures |r| == |lists|
  {
    seq(|lists|, i requires 0 <= i < |lists| => ListParts(lists[i]))
  }

  function TypeParts(t: AttributeType): seq<Part>
  {
    [ArrayPart("lists", ListsParts(t.lists)), BytesPart("name", t.name)]
  }

  function TypesParts(types: seq<AttributeType>): (r: seq<seq<Part>>)
    ensures |r| == |types|
  {
    seq(|types|, i requires 0 <= i < |types| => TypeParts(types[i]))
  }

  /** How far up a position is an introduction. */
  function IntroScope(scope: Scope): string
    requires scope.VerseKey?
  {
    if scope.book == 0 then (if scope.testament == 0 then "module" else "testament")
    else if scope.chapter == 0 then "book"
    else if scope.verse == 0 then "chapter"
    else "verse"
  }

  /** The names in a scope; a position outside any book has no book names. */
  function NameParts(scope: Scope, names: VerseNames): seq<Part>
  {
    if scope.SwordKey? then []
    else
      [OptionalPart("book_abbreviation", if scope.book == 0 then None else Some(names.abbreviation)),
       OptionalPart("book_name", if scope.book == 0 then None else Some(names.bookName)),
       TextPart("intro_scope", Text(IntroScope(scope))), BytesPart("osis_reference", names.osis),
       BytesPart("versification", names.versification)]
  }

  function ContextPart(c: Context): Part
  {
    match c
    case Count(name, n) => NumberPart(name, n)
    case Octets(name, b) => BytesPart(name, b)
  }

  function ContextParts(context: seq<Context>): (r: seq<Part>)
    ensures |r| == |context|
  {
    seq(|context|, i requires 0 <= i < |context| => ContextPart(context[i]))
  }

  function ModuleParts(d: Detail): seq<Part>
    requires d.Description?
  {
    [TextPart("classification", Text(ClassificationName(d.classification))), BytesPart("description", d.description),
     ObjectPart("direction", CodedParts(d.direction)), BytesPart("driver", d.driver),
     ObjectPart("encoding", CodedParts(d.encoding)), BytesPart("language", d.language),
     ObjectPart("markup", CodedParts(d.markup)), BytesPart("name", d.name), BytesPart("sword_type", d.swordType)]
  }

  /** The members beside those of the record. */
  function DetailParts(d: Detail): seq<Part>
  {
    match d
    case Nothing => []
    case Versions(producer, sword) => [TextPart("producer_version", producer), TextPart("sword_version", sword)]
    case Description(_, _, _, _, _, _, _, _, _) => ModuleParts(d)
    case Around(attributes, _) => [ArrayPart("official_attributes", TypesParts(attributes))]
    case Message(message, context) => [BytesPart("message", message)] + ContextParts(context)
  }

  function ExtrasOf(parts: seq<Part>): Extras
  {
    Extras(PartFields(parts), PartValues(parts))
  }

  const NO_NAMES := VerseNames([], [], [], [])

  function ScopeExtras(r: Record, d: Detail): Extras
  {
    if r.Entry? && d.Around? then ExtrasOf(NameParts(r.entry.scope, d.names)) else ExtrasOf([])
  }

  /** Everything printed of a record but its number and its type. */
  function FullFields(r: Record, d: Detail): JsonFields
  {
    RecordFields(r, ExtrasOf(DetailParts(d)), ScopeExtras(r, d))
  }

  // All of it is printed.

  lemma ObjectGood(name: string, parts: seq<Part>)
    requires AsciiText(name) && WellPrinted(parts)
    ensures Good(ObjectPart(name, parts))
  {
    hide Printed, ObjectText, ObjectOf, PartFields, PartValues, AllPrinted, AsciiText;
    PartsPrinted(parts);
    ObjectPrinted(PartFields(parts), PartValues(parts));
  }

  ghost predicate AllWellPrinted(elements: seq<seq<Part>>)
  {
    forall i :: 0 <= i < |elements| ==> WellPrinted(elements[i])
  }

  lemma ArrayGood(name: string, elements: seq<seq<Part>>)
    requires AsciiText(name) && AllWellPrinted(elements)
    ensures Good(ArrayPart(name, elements))
  {
    hide Printed, ObjectText, ObjectOf, PartFields, PartValues, AllPrinted, AsciiText, WellPrinted, ArrayText;
    forall i | 0 <= i < |elements|
      ensures Printed(ElementTexts(elements)[i], ElementValues(elements)[i])
    {
      PartsPrinted(elements[i]);
      ObjectPrinted(PartFields(elements[i]), PartValues(elements[i]));
    }
    ArrayPrinted(ElementTexts(elements), ElementValues(elements));
  }

  lemma CodedPrinted(c: Coded)
    ensures WellPrinted(CodedParts(c))
  {
    hide Good, NumberPart, TextPart, Text;
    NumberGood("code", c.code);
    LiteralGood("name", c.name);
  }

  lemma AttributePrinted(a: Attribute)
    ensures WellPrinted(AttributeParts(a))
  {
    hide Good, BytesPart;
    BytesGood("name", a.name);
    BytesGood("value", a.value);
  }

  lemma ListPrinted(l: AttributeList)
    ensures WellPrinted(ListParts(l))
  {
    hide Good, BytesPart, ArrayPart, AttributeParts;
    forall i | 0 <= i < |l.values|
      ensures WellPrinted(AttributesParts(l.values)[i])
    {
      AttributePrinted(l.values[i]);
    }
    BytesGood("name", l.name);
    ArrayGood("values", AttributesParts(l.values));
  }

  lemma TypePrinted(t: AttributeType)
    ensures WellPrinted(TypeParts(t))
  {
    hide Good, BytesPart, ArrayPart, ListParts;
    forall i | 0 <= i < |t.lists|
      ensures WellPrinted(ListsParts(t.lists)[i])
    {
      ListPrinted(t.lists[i]);
    }
    ArrayGood("lists", ListsParts(t.lists));
    BytesGood("name", t.name);
  }

  lemma AttributesPrinted(types: seq<AttributeType>)
    ensures Good(ArrayPart("official_attributes", TypesParts(types)))
  {
    hide Good, ArrayPart, TypeParts;
    forall i | 0 <= i < |types|
      ensures WellPrinted(TypesParts(types)[i])
    {
      TypePrinted(types[i]);
    }
    ArrayGood("official_attributes", TypesParts(types));
  }

  lemma NamesPrinted(scope: Scope, names: VerseNames)
    ensures WellPrinted(NameParts(scope, names))
  {
    hide Good, OptionalPart, TextPart, BytesPart, Text, IntroScope;
    if scope.VerseKey? {
      OptionalGood("book_abbreviation", if scope.book == 0 then None else Some(names.abbreviation));
      OptionalGood("book_name", if scope.book == 0 then None else Some(names.bookName));
      LiteralGood("intro_scope", IntroScope(scope));
      BytesGood("osis_reference", names.osis);
      BytesGood("versification", names.versification);
    }
  }

  lemma ContextPrinted(context: seq<Context>)
    requires FreeNames(context)
    ensures WellPrinted(ContextParts(context))
  {
    hide Good, NumberPart, BytesPart, AsciiText;
    forall i | 0 <= i < |context|
      ensures Good(ContextParts(context)[i])
    {
      assert FreeName(context[i].name);
      if context[i].Count? {
        NumberGood(context[i].name, context[i].n);
      } else {
        BytesGood(context[i].name, context[i].b);
      }
    }
  }

  lemma CodesPrinted(d: Detail)
    requires d.Description?
    ensures Good(ObjectPart("direction", CodedParts(d.direction)))
            && Good(ObjectPart("encoding", CodedParts(d.encoding)))
    ensures Good(ObjectPart("markup", CodedParts(d.markup)))
    ensures Good(TextPart("classification", Text(ClassificationName(d.classification))))
  {
    hide Good, ObjectPart, CodedParts, WellPrinted, TextPart, Text, ClassificationName;
    CodedPrinted(d.direction);
    CodedPrinted(d.encoding);
    CodedPrinted(d.markup);
    ObjectGood("direction", CodedParts(d.direction));
    ObjectGood("encoding", CodedParts(d.encoding));
    ObjectGood("markup", CodedParts(d.markup));
    LiteralGood("classification", ClassificationName(d.classification));
  }

  lemma ModulePrinted(d: Detail)
    requires d.Description?
    ensures WellPrinted(ModuleParts(d))
  {
    hide Good, ObjectPart, CodedParts, TextPart, BytesPart, Text, ClassificationName;
    CodesPrinted(d);
    BytesGood("description", d.description);
    BytesGood("driver", d.driver);
    BytesGood("language", d.language);
    BytesGood("name", d.name);
    BytesGood("sword_type", d.swordType);
  }

  lemma VersionsPrinted(d: Detail)
    requires d.Versions? && Utf8.Valid(d.producer) && Utf8.Valid(d.sword)
    ensures WellPrinted(DetailParts(d))
  {
    hide Good, TextPart, Utf8.Valid, ModuleParts, ArrayPart, TypesParts, ContextParts, BytesPart;
    TextGood("producer_version", d.producer);
    TextGood("sword_version", d.sword);
  }

  lemma MessagePrinted(d: Detail)
    requires d.Message? && FreeNames(d.context)
    ensures WellPrinted(DetailParts(d))
  {
    hide Good, TextPart, Utf8.Valid, ModuleParts, ArrayPart, TypesParts, ContextParts, BytesPart, FreeNames;
    BytesGood("message", d.message);
    ContextPrinted(d.context);
  }

  lemma DetailPrinted(r: Record, d: Detail)
    requires Fits(r, d)
    ensures WellPrinted(DetailParts(d))
  {
    hide Good, TextPart, Utf8.Valid, ModuleParts, ArrayPart, TypesParts, ContextParts, BytesPart, FreeNames;
    match d
    case Nothing =>
    case Versions(_, _) => VersionsPrinted(d);
    case Description(_, _, _, _, _, _, _, _, _) => ModulePrinted(d);
    case Around(attributes, _) => AttributesPrinted(attributes);
    case Message(_, _) => MessagePrinted(d);
  }

  lemma ExtrasProper(r: Record, d: Detail)
    requires Fits(r, d)
    ensures Proper(ExtrasOf(DetailParts(d))) && Proper(ScopeExtras(r, d))
  {
    hide Good, DetailParts, NameParts, PartFields, PartValues, AllPrinted, Fits;
    DetailPrinted(r, d);
    PartsPrinted(DetailParts(d));
    PartsPrinted([]);
    if r.Entry? && d.Around? {
      NamesPrinted(r.entry.scope, d.names);
      PartsPrinted(NameParts(r.entry.scope, d.names));
    }
  }
}
