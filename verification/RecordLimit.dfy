/** How long a record line gets, and which chunks the validator's default limit lets through. */
module RecordLimit {
  import opened Bytes
  import opened Records
  import opened JsonText
  import opened ByteValue
  import opened Sha256Spec
  import opened Writer
  import Base64
  import FooterTrip
  import JsonLines
  import RecordCodec
  import RecordText
  import Utf8

  /** `DEFAULT_MAX_RECORD_BYTES`. */
  const DEFAULT_MAXIMUM := 67108864

  const MEBIBYTE := 1048576

  // Lengths of the parts.

  /** Octets that are printed as they are. */
  predicate Plain(b: bytes)
  {
    forall i :: 0 <= i < |b| ==> PlainOctet(b[i])
  }

  predicate PlainOctet(c: byte)
  {
    c >= 0x20 && c != QUOTE && c != BACKSLASH
  }

  lemma PlainText(s: string)
    requires forall i :: 0 <= i < |s| ==> PlainOctet(s[i] as int % 128)
    ensures Plain(Text(s)) && |Text(s)| == |s|
  {
  }

  lemma {:induction false} PlainUnescaped(b: bytes)
    requires Plain(b)
    ensures Escape(b) == b
  {
    if b != [] {
      PlainUnescaped(b[1..]);
      assert PlainOctet(b[0]) && b == [b[0]] + b[1..];
    }
  }

  lemma SymbolPlain(v: nat)
    requires v < 64
    ensures PlainOctet(Base64.Symbol(v))
  {
  }

  lemma QuadPlain(b0: byte, b1: byte, b2: byte)
    ensures Plain(Base64.Quad(b0, b1, b2))
  {
    hide Base64.Symbol;
    SymbolPlain(b0 / 4);
    SymbolPlain(b0 % 4 * 16 + b1 / 16);
    SymbolPlain(b1 % 16 * 4 + b2 / 64);
    SymbolPlain(b2 % 64);
  }

  lemma {:induction false} EncodedPlain(b: bytes)
    ensures Plain(Base64.Encode(b))
  {
    hide Base64.Quad;
    if |b| >= 3 {
      QuadPlain(b[0], b[1], b[2]);
      EncodedPlain(b[3..]);
    } else if |b| == 2 {
      QuadPlain(b[0], b[1], 0);
    } else if |b| == 1 {
      QuadPlain(b[0], 0, 0);
    }
  }

  lemma {:induction false} HexPlain(b: bytes)
    ensures Plain(Hex(b)) && |Hex(b)| == 2 * |b|
  {
    if b != [] {
      HexPlain(b[1..]);
    }
  }

  lemma DigestPlain(b: bytes)
    ensures Plain(Sha256Hex(b)) && |Sha256Hex(b)| == 64
  {
    hide Hex;
    DigestSize(b);
    HexPlain(Sha256(b));
  }

  lemma DigestSize(b: bytes)
    ensures |Sha256(b)| == 32
  {
  }

  lemma StringLength(b: bytes)
    requires Plain(b)
    ensures |JsonString(b)| == |b| + 2
  {
    PlainUnescaped(b);
  }

  lemma MemberLength(name: bytes, value: bytes)
    requires Plain(name)
    ensures |MemberText(name, value)| == |name| + |value| + 3
  {
    hide Escape;
    StringLength(name);
  }

  function PowerOf10(k: nat): nat
  {
    if k == 0 then 1 else 10 * PowerOf10(k - 1)
  }

  lemma {:induction false} DecimalLength(n: nat, k: nat)
    requires k > 0 && n < PowerOf10(k)
    ensures |Decimal(n)| <= k
  {
    if n >= 10 {
      assert k > 1;
      DecimalLength(n / 10, k - 1);
    }
  }

  /** A 64-bit counter has at most 20 digits. */
  lemma CounterLength(n: nat)
    requires n < 0x1_0000_0000_0000_0000
    ensures |Decimal(n)| <= 20
  {
    hide Decimal;
    assert PowerOf10(5) == 100000;
    assert PowerOf10(10) == 10000000000;
    assert PowerOf10(15) == 1000000000000000;
    assert PowerOf10(20) == 100000000000000000000;
    DecimalLength(n, 20);
  }

  function Total(texts: seq<bytes>): nat
  {
    if texts == [] then 0 else |texts[0]| + Total(texts[1..])
  }

  lemma {:induction false} CommasLength(texts: seq<bytes>)
    requires texts != []
    ensures |Commas(texts)| == Total(texts) + |texts| - 1
  {
    if |texts| > 1 {
      CommasLength(texts[1..]);
    } else {
      assert Total(texts[1..]) == 0;
    }
  }

  lemma TotalOf4(a: bytes, b: bytes, c: bytes, d: bytes)
    ensures Total([a, b, c, d]) == |a| + |b| + |c| + |d|
  {
    assert [a, b, c, d][1..] == [b, c, d];
    assert [b, c, d][1..] == [c, d];
    assert [c, d][1..] == [d];
    assert [d][1..] == [];
    assert Total([d]) == |d|;
    assert Total([c, d]) == |c| + Total([d]);
    assert Total([b, c, d]) == |b| + Total([c, d]);
  }

  lemma TotalOf5(a: bytes, b: bytes, c: bytes, d: bytes, e: bytes)
    ensures Total([a, b, c, d, e]) == |a| + |b| + |c| + |d| + |e|
  {
    assert [a, b, c, d, e][1..] == [b, c, d, e];
    TotalOf4(b, c, d, e);
  }

  // The envelope.

  /** What the readable copy of the octets adds. */
  function TextCost(b: bytes): nat
  {
    if Utf8.Valid(b) then |Escape(b)| + 10 else 0
  }

  lemma NamesPlain()
    ensures Plain(BASE64) && Plain(ENCODING) && Plain(SHA256) && Plain(SIZE) && Plain(UTF8)
    ensures |BASE64| == 6 && |ENCODING| == 8 && |SHA256| == 6 && |SIZE| == 4 && |UTF8| == 4
  {
    hide Text, Plain;
    PlainText("base64");
    PlainText("encoding");
    PlainText("sha256");
    PlainText("size");
    PlainText("utf8");
  }

  lemma EncodedMember(b: bytes)
    ensures |MemberText(BASE64, JsonString(Base64.Encode(b)))| == 4 * ((|b| + 2) / 3) + 11
  {
    hide Base64.Encode, JsonString, MemberText, Plain;
    NamesPlain();
    EncodedPlain(b);
    Base64.EncodeLength(b);
    StringLength(Base64.Encode(b));
    MemberLength(BASE64, JsonString(Base64.Encode(b)));
  }

  lemma EncodingMember()
    ensures |MemberText(ENCODING, JsonString(BASE64))| == 19
  {
    hide JsonString, MemberText, Plain;
    NamesPlain();
    StringLength(BASE64);
    MemberLength(ENCODING, JsonString(BASE64));
  }

  lemma DigestMember(b: bytes)
    ensures |MemberText(SHA256, JsonString(Sha256Hex(b)))| == 75
  {
    hide Sha256Hex, JsonString, MemberText, Plain;
    NamesPlain();
    DigestPlain(b);
    StringLength(Sha256Hex(b));
    MemberLength(SHA256, JsonString(Sha256Hex(b)));
  }

  lemma TextMember(b: bytes)
    ensures |MemberText(UTF8, JsonString(b))| == |Escape(b)| + 9
  {
    hide MemberText, Plain, Escape;
    NamesPlain();
    MemberLength(UTF8, JsonString(b));
  }

  lemma Texts4(n: seq<bytes>, v: seq<bytes>)
    requires |n| == |v| == 4
    ensures MemberTexts(n, v) ==
            [MemberText(n[0], v[0]), MemberText(n[1], v[1]), MemberText(n[2], v[2]), MemberText(n[3], v[3])]
  {
    hide MemberText;
  }

  lemma Texts5(n: seq<bytes>, v: seq<bytes>)
    requires |n| == |v| == 5
    ensures MemberTexts(n, v) ==
            [MemberText(n[0], v[0]), MemberText(n[1], v[1]), MemberText(n[2], v[2]), MemberText(n[3], v[3]),
             MemberText(n[4], v[4])]
  {
    hide MemberText;
  }

  lemma NamesAre(withText: bool)
    ensures Names(withText) == if withText then [BASE64, ENCODING, SHA256, SIZE, UTF8]
            else [BASE64, ENCODING, SHA256, SIZE]
  {
    hide Text;
  }

  lemma PrintedValuesAre(b: bytes)
    ensures var e, n, d, s := JsonString(Base64.Encode(b)), JsonString(BASE64), JsonString(Sha256Hex(b)), Decimal(|b|);
            PrintedValues(b) == if Utf8.Valid(b) then [e, n, d, s, JsonString(b)] else [e, n, d, s]
  {
    hide Text, JsonString, Base64.Encode, Sha256Hex, Decimal, Utf8.Valid;
  }

  lemma EnvelopeTexts(b: bytes)
    ensures var e, n, d, s := MemberText(BASE64, JsonString(Base64.Encode(b))),
            MemberText(ENCODING, JsonString(BASE64)), MemberText(SHA256, JsonString(Sha256Hex(b))),
            MemberText(SIZE, Decimal(|b|));
            Texts(b) == if Utf8.Valid(b) then [e, n, d, s, MemberText(UTF8, JsonString(b))] else [e, n, d, s]
  {
    hide MemberText, JsonString, Base64.Encode, Sha256Hex, Decimal, Utf8.Valid, Text, Names, PrintedValues, MemberTexts;
    NamesAre(Utf8.Valid(b));
    PrintedValuesAre(b);
    if Utf8.Valid(b) {
      Texts5(Names(true), PrintedValues(b));
    } else {
      Texts4(Names(false), PrintedValues(b));
    }
  }

  /** The exact length of a printed envelope. */
  lemma EnvelopeLength(b: bytes)
    ensures |EnvelopeText(b)| == 4 * ((|b| + 2) / 3) + |Decimal(|b|)| + TextCost(b) + 117
  {
    hide MemberText, JsonString, Base64.Encode, Sha256Hex, Decimal, Utf8.Valid, Escape, Plain, Texts, Total, Commas;
    EnvelopeTexts(b);
    EncodedMember(b);
    EncodingMember();
    DigestMember(b);
    NamesPlain();
    MemberLength(SIZE, Decimal(|b|));
    var e, n, d, s := MemberText(BASE64, JsonString(Base64.Encode(b))), MemberText(ENCODING, JsonString(BASE64)),
                      MemberText(SHA256, JsonString(Sha256Hex(b))), MemberText(SIZE, Decimal(|b|));
    CommasLength(Texts(b));
    if Utf8.Valid(b) {
      TextMember(b);
      TotalOf5(e, n, d, s, MemberText(UTF8, JsonString(b)));
    } else {
      TotalOf4(e, n, d, s);
    }
  }

  // Chunk lines.

  const ARTIFACT_ID := Text("artifact_id")
  const DATA := Text("data")
  const INDEX := Text("index")

  /** The members `emit_artifacts` gives a chunk record. */
  function ChunkFields(id: nat, index: nat, data: bytes): JsonFields
  {
    map[ARTIFACT_ID := Decimal(id), DATA := EnvelopeText(data), INDEX := Decimal(index)]
  }

  /** They are the members that carry a chunk record. */
  lemma ChunkFieldsAre(id: nat, index: nat, data: bytes, scope: RecordCodec.Extras)
    ensures ChunkFields(id, index, data) ==
            RecordText.PartFields(RecordCodec.PartsOf(ArtifactChunk(id, index, data), scope))
  {
    hide Decimal, EnvelopeText, Text, RecordText.PartFields;
    FooterTrip.ThreeFields(RecordText.NumberPart("artifact_id", id), RecordText.BytesPart("data", data),
                           RecordText.NumberPart("index", index));
  }

  function ChunkLine(sequence: nat, id: nat, index: nat, data: bytes): bytes
  {
    LineText(ArtifactChunkType, sequence, ChunkFields(id, index, data))
  }

  function Elements(names: seq<bytes>): set<bytes>
  {
    set name | name in names
  }

  /** A strictly increasing list of names is what the names are sorted to. */
  lemma {:induction false} SortedNamesIs(names: seq<bytes>)
    requires Increasing(names)
    ensures SortedNames(Elements(names)) == names
  {
    if names == [] {
      assert Elements(names) == {};
    } else {
      hide Less;
      var rest := names[1..];
      SortedNamesIs(rest);
      forall name | name in rest
        ensures Less(names[0], name) && name != names[0]
      {
        LessIrreflexive(names[0]);
      }
      assert Elements(names) == {names[0]} + Elements(rest) by { assert names == [names[0]] + rest; }
      assert IsLeast(names[0], Elements(names));
      LeastUnique(Elements(names));
      assert Elements(names) - {names[0]} == Elements(rest);
      assert names == [names[0]] + rest;
    }
  }

  function ChunkNames(): (r: seq<bytes>)
    ensures |r| == 5
  {
    [ARTIFACT_ID, DATA, INDEX, SEQUENCE, TYPE]
  }

  lemma ChunkNamesIncrease()
    ensures Increasing(ChunkNames())
  {
    hide Less;
    LessAt(ARTIFACT_ID, DATA, 0);
    LessAt(ARTIFACT_ID, INDEX, 0);
    LessAt(ARTIFACT_ID, SEQUENCE, 0);
    LessAt(ARTIFACT_ID, TYPE, 0);
    LessAt(DATA, INDEX, 0);
    LessAt(DATA, SEQUENCE, 0);
    LessAt(DATA, TYPE, 0);
    LessAt(INDEX, SEQUENCE, 0);
    LessAt(INDEX, TYPE, 0);
    LessAt(SEQUENCE, TYPE, 0);
  }

  lemma ChunkNamesPlain()
    ensures Plain(ARTIFACT_ID) && Plain(DATA) && Plain(INDEX) && Plain(SEQUENCE) && Plain(TYPE)
    ensures |ARTIFACT_ID| == 11 && |DATA| == 4 && |INDEX| == 5 && |SEQUENCE| == 8 && |TYPE| == 4
    ensures Plain(TypeName(ArtifactChunkType)) && |TypeName(ArtifactChunkType)| == 14
  {
    hide Text, Plain;
    PlainText("artifact_id");
    PlainText("data");
    PlainText("index");
    PlainText("sequence");
    PlainText("type");
    PlainText("artifact_chunk");
  }

  lemma ChunkNamesDiffer()
    ensures ARTIFACT_ID != SEQUENCE && ARTIFACT_ID != TYPE && ARTIFACT_ID != DATA && ARTIFACT_ID != INDEX
    ensures DATA != SEQUENCE && DATA != TYPE && DATA != INDEX && INDEX != SEQUENCE && INDEX != TYPE && SEQUENCE != TYPE
  {
    assert |ARTIFACT_ID| == 11 && |DATA| == 4 && |INDEX| == 5 && |SEQUENCE| == 8 && |TYPE| == 4;
    assert DATA[0] == 0x64 && TYPE[0] == 0x74;
  }

  /** The values of a chunk record in name order. */
  function ChunkValues(sequence: nat, id: nat, index: nat, data: bytes): (r: seq<bytes>)
    ensures |r| == 5
  {
    [Decimal(id), EnvelopeText(data), Decimal(index), Decimal(sequence), JsonString(TypeName(ArtifactChunkType))]
  }

  lemma ChunkLineIs(sequence: nat, id: nat, index: nat, data: bytes)
    ensures ChunkLine(sequence, id, index, data) ==
            [OPEN_BRACE] + Commas(MemberTexts(ChunkNames(), ChunkValues(sequence, id, index, data))) + [CLOSE_BRACE]
              + [LF]
  {
    hide EnvelopeText, Decimal, JsonString, TypeName, Commas, MemberTexts, SortedNames, Increasing, Plain, Elements,
      Text;
    ChunkNamesIncrease();
    ChunkNamesDiffer();
    var fields :=
      ChunkFields(id, index, data)[SEQUENCE := Decimal(sequence)][TYPE := JsonString(TypeName(ArtifactChunkType))];
    assert fields.Keys == Elements(ChunkNames()) by { ElementsOf(ChunkNames()); }
    SortedNamesIs(ChunkNames());
    SortedNamesFacts(fields.Keys);
    assert Select(ChunkNames(), fields) == ChunkValues(sequence, id, index, data);
  }

  lemma ElementsOf(names: seq<bytes>)
    ensures forall name :: name in Elements(names) <==> name in names
  {
  }

  lemma ChunkMembers(sequence: nat, id: nat, index: nat, data: bytes)
    ensures Total(MemberTexts(ChunkNames(), ChunkValues(sequence, id, index, data))) ==
            |Decimal(sequence)| + |Decimal(id)| + |Decimal(index)| + |EnvelopeText(data)| + 63
  {
    hide EnvelopeText, Decimal, TypeName, MemberText, Plain, Escape, Total, Text;
    ChunkNamesPlain();
    StringLength(TypeName(ArtifactChunkType));
    var values := ChunkValues(sequence, id, index, data);
    MemberLength(ARTIFACT_ID, values[0]);
    MemberLength(DATA, values[1]);
    MemberLength(INDEX, values[2]);
    MemberLength(SEQUENCE, values[3]);
    MemberLength(TYPE, values[4]);
    TotalOf5(MemberText(ARTIFACT_ID, values[0]), MemberText(DATA, values[1]), MemberText(INDEX, values[2]),
             MemberText(SEQUENCE, values[3]), MemberText(TYPE, values[4]));
    assert MemberTexts(ChunkNames(), values) ==
           [MemberText(ARTIFACT_ID, values[0]), MemberText(DATA, values[1]), MemberText(INDEX, values[2]),
            MemberText(SEQUENCE, values[3]), MemberText(TYPE, values[4])];
  }

  /** The exact length of a chunk line. */
  lemma ChunkLineLength(sequence: nat, id: nat, index: nat, data: bytes)
    ensures |ChunkLine(sequence, id, index, data)| ==
            4 * ((|data| + 2) / 3) + TextCost(data) + |Decimal(|data|)| + |Decimal(sequence)| + |Decimal(id)|
            + |Decimal(index)| + 187
  {
    hide EnvelopeText, Decimal, Commas, Total, ChunkLine, TextCost, ChunkValues, MemberTexts;
    ChunkLineIs(sequence, id, index, data);
    ChunkMembers(sequence, id, index, data);
    EnvelopeLength(data);
    CommasLength(MemberTexts(ChunkNames(), ChunkValues(sequence, id, index, data)));
  }

  // The worst chunk.

  lemma {:induction false} ZerosEscaped(n: nat)
    ensures |Escape(Zeros(n))| == 6 * n
  {
    if n > 0 {
      ZerosEscaped(n - 1);
      assert Zeros(n)[1..] == Zeros(n - 1);
    }
  }

  lemma ZerosCost(n: nat)
    ensures TextCost(Zeros(n)) == 6 * n + 10
  {
    hide Utf8.Valid, Escape;
    JsonLines.AsciiValid(Zeros(n));
    ZerosEscaped(n);
  }

  lemma CostBound(b: bytes)
    ensures TextCost(b) <= 6 * |b| + 10
  {
    hide Utf8.Valid, Escape;
    EscapeFacts(b);
  }

  /** No chunk of `n` octets makes a longer line than `n` NUL octets. */
  lemma ZerosAreWorst(sequence: nat, id: nat, index: nat, data: bytes)
    ensures |ChunkLine(sequence, id, index, data)| <= |ChunkLine(sequence, id, index, Zeros(|data|))|
  {
    hide ChunkLine, TextCost, Decimal;
    ChunkLineLength(sequence, id, index, data);
    ChunkLineLength(sequence, id, index, Zeros(|data|));
    ZerosCost(|data|);
    CostBound(data);
  }

  /** Nor does one of fewer octets. */
  lemma SmallerIsShorter(sequence: nat, id: nat, index: nat, data: bytes, size: nat)
    requires |data| <= size
    ensures |ChunkLine(sequence, id, index, data)| <= |ChunkLine(sequence, id, index, Zeros(size))|
  {
    hide ChunkLine, TextCost, Decimal;
    ChunkLineLength(sequence, id, index, data);
    ChunkLineLength(sequence, id, index, Zeros(size));
    ZerosCost(size);
    CostBound(data);
    DecimalGrows(|data|, size);
  }

  /** The chunks up to a size all fit a limit exactly when the most expensive one of that size does. */
  lemma FitsIff(sequence: nat, id: nat, index: nat, size: nat, maximum: nat)
    ensures (forall data: bytes :: |data| <= size ==> |ChunkLine(sequence, id, index, data)| <= maximum) <==>
            4 * ((size + 2) / 3) + 6 * size + |Decimal(size)| + |Decimal(sequence)| + |Decimal(id)| + |Decimal(index)|
              + 197
              <= maximum
  {
    hide ChunkLine, TextCost, Decimal;
    var worst := Zeros(size);
    ChunkLineLength(sequence, id, index, worst);
    ZerosCost(size);
    assert |worst| == size;
    forall data: bytes | |data| <= size
      ensures |ChunkLine(sequence, id, index, data)| <= |ChunkLine(sequence, id, index, worst)|
    {
      SmallerIsShorter(sequence, id, index, data, size);
    }
  }

  lemma {:induction false} DecimalGrows(m: nat, n: nat)
    requires m <= n
    ensures |Decimal(m)| <= |Decimal(n)|
    decreases n
  {
    if m >= 10 {
      DecimalGrows(m / 10, n / 10);
    }
  }

  /** With chunks of at most 8 MiB every chunk line passes the default limit. */
  lemma ChunksFitDefault(sequence: nat, id: nat, index: nat, data: bytes)
    requires |data| <= 8 * MEBIBYTE
    requires sequence < 0x1_0000_0000_0000_0000 && id < 0x1_0000_0000_0000_0000 && index < 0x1_0000_0000_0000_0000
    ensures |ChunkLine(sequence, id, index, data)| <= DEFAULT_MAXIMUM
  {
    hide ChunkLine, TextCost, Decimal;
    ChunkLineLength(sequence, id, index, data);
    CostBound(data);
    CounterLength(sequence);
    CounterLength(id);
    CounterLength(index);
    CounterLength(|data|);
  }

  /** The largest chunk size the producer takes does not: a chunk of 16 MiB of NUL octets is turned away. */
  lemma LargestChunksDoNot(sequence: nat, id: nat, index: nat)
    ensures |ChunkLine(sequence, id, index, Zeros(MAXIMUM_CHUNK_SIZE))| > DEFAULT_MAXIMUM
  {
    hide ChunkLine, TextCost, Decimal;
    ChunkLineLength(sequence, id, index, Zeros(MAXIMUM_CHUNK_SIZE));
    ZerosCost(MAXIMUM_CHUNK_SIZE);
  }
}
