/** The byte envelope: Base64, SHA-256 and, where possible, UTF-8 around arbitrary octets. */
module ByteValue {
  import opened Bytes
  import opened JsonText
  import opened JsonParse
  import opened JsonLines
  import opened JsonObjects
  import opened Sha256Spec
  import Base64
  import Sha256Stream
  import Utf8

  const BASE64 := Text("base64")
  const ENCODING := Text("encoding")
  const SHA256 := Text("sha256")
  const SIZE := Text("size")
  const UTF8 := Text("utf8")

  /** The member names, in the order in which they are printed. */
  function Names(withText: bool): (r: seq<bytes>)
    ensures |r| == if withText then 5 else 4
  {
    [BASE64, ENCODING, SHA256, SIZE] + if withText then [UTF8] else []
  }

  function PrintedValues(b: bytes): (r: seq<bytes>)
    ensures |r| == if Utf8.Valid(b) then 5 else 4
  {
    [JsonString(Base64.Encode(b)), JsonString(BASE64), JsonString(Sha256Hex(b)), Decimal(|b|)]
    + if Utf8.Valid(b) then [JsonString(b)] else []
  }

  function Values(b: bytes): (r: seq<Json>)
    ensures |r| == if Utf8.Valid(b) then 5 else 4
  {
    [Str(Base64.Encode(b)), Str(BASE64), Str(Sha256Hex(b)), Integer(|b|)]
    + if Utf8.Valid(b) then [Str(b)] else []
  }

  function Texts(b: bytes): seq<bytes>
  {
    MemberTexts(Names(Utf8.Valid(b)), PrintedValues(b))
  }

  function EnvelopeText(b: bytes): bytes
  {
    [OPEN_BRACE] + Commas(Texts(b)) + [CLOSE_BRACE]
  }

  /** The members an envelope stands for. */
  function Envelope(b: bytes): seq<Member>
  {
    MembersOf(Names(Utf8.Valid(b)), Values(b))
  }

  /** `sha256_hex`: the streaming hash, used in one go. */
  method HexOf(b: bytes) returns (r: bytes)
    requires |b| < 0x2000_0000_0000_0000
    ensures r == Sha256Hex(b)
  {
    hide Sha256Hex;
    var hash := new Sha256Stream.Sha256();
    hash.Update(b);
    r := hash.HexDigest();
    assert [] + b == b;
  }

  method ByteValueJson(b: bytes) returns (output: bytes)
    requires |b| < 0x2000_0000_0000_0000
    ensures output == EnvelopeText(b)
  {
    hide Sha256Hex, Base64.Encode, Utf8.Valid, Commas, MemberText, JsonString;
    ghost var texts := Texts(b);
    var encoded := Base64.Base64Encode(b);
    var digest := HexOf(b);
    output := [OPEN_BRACE] + MemberText(BASE64, JsonString(encoded));
    OneText(texts);
    output := output + [COMMA] + MemberText(ENCODING, JsonString(BASE64));
    OneMore(texts, 1);
    output := output + [COMMA] + MemberText(SHA256, JsonString(digest));
    OneMore(texts, 2);
    output := output + [COMMA] + MemberText(SIZE, Decimal(|b|));
    OneMore(texts, 3);
    var valid := Utf8.IsValidUtf8(b);
    if valid {
      output := output + [COMMA] + MemberText(UTF8, JsonString(b));
      OneMore(texts, 4);
    }
    assert texts[..|texts|] == texts;
    output := output + [CLOSE_BRACE];
  }

  lemma OneText(texts: seq<bytes>)
    requires texts != []
    ensures Commas(texts[..1]) == texts[0]
  {
  }

  lemma OneMore(texts: seq<bytes>, i: nat)
    requires 0 < i < |texts|
    ensures [OPEN_BRACE] + Commas(texts[..i + 1]) == [OPEN_BRACE] + Commas(texts[..i]) + [COMMA] + texts[i]
  {
    hide Commas;
    CommasTake(texts, i);
  }

  // Reading an envelope.

  function Lookup(members: seq<Member>, name: bytes): (r: Option<Json>)
    ensures r.Some? <==> Named(members, name)
    ensures r.Some? ==> exists i :: 0 <= i < |members| && members[i] == Member(name, r.value)
  {
    if members == [] then None
    else if members[0].name == name then
      assert members[0] == Member(name, members[0].value);
      Some(members[0].value)
    else
      var r := Lookup(members[1..], name);
      assert r.Some? ==> forall i :: 0 <= i < |members| - 1 ==> members[1..][i] == members[i + 1];
      r
  }

  predicate KnownName(name: bytes)
  {
    name in Names(true)
  }

  /** `decode_byte_value`. */
  function DecodeByteValue(value: Json): (r: Option<bytes>)
  {
    if !value.Object? then None
    else
      var m := value.members;
      var encoded, encoding := Lookup(m, BASE64), Lookup(m, ENCODING);
      var digest, size, text := Lookup(m, SHA256), Lookup(m, SIZE), Lookup(m, UTF8);
      if encoded.None? || encoding.None? || digest.None? || size.None? then None
      else if exists i :: 0 <= i < |m| && !KnownName(m[i].name) then None
      else if encoding.value != Str(BASE64) || !encoded.value.Str? then None
      else
        var b := Base64.CanonicalDecode(encoded.value.text);
        if b.None? || size.value != Integer(|b.value|) || digest.value != Str(Sha256Hex(b.value)) then None
        else if text.Some? && !(Utf8.Valid(b.value) && text.value == Str(b.value)) then None
        else b
  }

  // The printed envelope reads back as the envelope, and the envelope decodes to its octets.

  lemma NamesIncrease(withText: bool)
    ensures Increasing(Names(withText))
  {
    hide Less;
    LessAt(BASE64, ENCODING, 0);
    LessAt(ENCODING, SHA256, 0);
    LessAt(SHA256, SIZE, 1);
    LessAt(SIZE, UTF8, 0);
    LessAt(BASE64, SHA256, 0);
    LessAt(BASE64, SIZE, 0);
    LessAt(BASE64, UTF8, 0);
    LessAt(ENCODING, SIZE, 0);
    LessAt(ENCODING, UTF8, 0);
    LessAt(SHA256, UTF8, 0);
  }

  predicate Ascii(b: bytes)
  {
    forall i :: 0 <= i < |b| ==> b[i] < 0x80
  }

  lemma SymbolAscii(v: nat)
    requires v < 64
    ensures Base64.Symbol(v) < 0x80
  {
  }

  lemma QuadAscii(b0: byte, b1: byte, b2: byte)
    ensures Ascii(Base64.Quad(b0, b1, b2))
  {
    hide Base64.Symbol;
    SymbolAscii(b0 / 4);
    SymbolAscii(b0 % 4 * 16 + b1 / 16);
    SymbolAscii(b1 % 16 * 4 + b2 / 64);
    SymbolAscii(b2 % 64);
  }

  lemma {:induction false} EncodedAscii(b: bytes)
    ensures Ascii(Base64.Encode(b))
  {
    hide Base64.Quad;
    if |b| >= 3 {
      QuadAscii(b[0], b[1], b[2]);
      EncodedAscii(b[3..]);
    } else if |b| == 2 {
      QuadAscii(b[0], b[1], 0);
    } else if |b| == 1 {
      QuadAscii(b[0], 0, 0);
    }
  }

  lemma {:induction false} HexAscii(b: bytes)
    ensures Ascii(Hex(b))
  {
    if b != [] {
      HexAscii(b[1..]);
    }
  }

  lemma DigestAscii(b: bytes)
    ensures Ascii(Sha256Hex(b))
  {
    hide Sha256;
    HexAscii(Sha256(b));
  }

  lemma NamesAscii(withText: bool)
    ensures forall i :: 0 <= i < |Names(withText)| ==> Ascii(Names(withText)[i])
  {
  }

  lemma AsciiString(b: bytes)
    requires Ascii(b)
    ensures Printed(JsonString(b), Str(b)) && Utf8.Valid(b)
  {
    hide Utf8.Valid, Printed;
    AsciiValid(b);
    StringPrinted(b);
  }

  /** An envelope is well-formed JSON text and stands for its members. */
  lemma EnvelopePrinted(b: bytes)
    ensures Printed(EnvelopeText(b), Object(Envelope(b)))
  {
    hide Printed, Utf8.Valid, JsonString, Decimal, Sha256Hex, Base64.Encode, Increasing, Ascii, MemberTexts, MembersOf,
      Commas;
    var names := Names(Utf8.Valid(b));
    NamesIncrease(Utf8.Valid(b));
    NamesAscii(Utf8.Valid(b));
    EncodedAscii(b);
    DigestAscii(b);
    AsciiString(Base64.Encode(b));
    AsciiString(Sha256Hex(b));
    AsciiString(BASE64) by { NamesAscii(true); assert Names(true)[0] == BASE64; }
    NumberPrinted(|b|);
    if Utf8.Valid(b) {
      StringPrinted(b);
    }
    forall i | 0 <= i < |names|
      ensures Utf8.Valid(names[i]) && Printed(PrintedValues(b)[i], Values(b)[i])
    {
      AsciiString(names[i]);
    }
    BracesPrinted(names, PrintedValues(b), Values(b));
  }

  lemma {:induction false} LookupMember(members: seq<Member>, i: nat)
    requires i < |members| && DistinctNames(members)
    ensures Lookup(members, members[i].name) == Some(members[i].value)
  {
    if i > 0 {
      assert members[1..][i - 1] == members[i];
      LookupMember(members[1..], i - 1);
    }
  }

  /** Finding a value under a name and containing the member are the same. */
  lemma LookupIs(members: seq<Member>, name: bytes, value: Json)
    requires DistinctNames(members)
    ensures Lookup(members, name) == Some(value) <==> Member(name, value) in members
  {
    hide Named;
    if Member(name, value) in members {
      var i :| 0 <= i < |members| && members[i] == Member(name, value);
      LookupMember(members, i);
    }
    hide DistinctNames;
    if Lookup(members, name) == Some(value) {
      assert Lookup(members, name).Some?;
    }
  }

  lemma NotFound(members: seq<Member>, name: bytes)
    ensures Lookup(members, name).None? <==> forall value :: Member(name, value) !in members
  {
    if Named(members, name) {
      var i :| 0 <= i < |members| && members[i].name == name;
      assert members[i] == Member(name, members[i].value);
    }
  }

  lemma NamesDiffer()
    ensures BASE64 != ENCODING && BASE64 != SHA256 && BASE64 != SIZE && BASE64 != UTF8
    ensures ENCODING != SHA256 && ENCODING != SIZE && ENCODING != UTF8
    ensures SHA256 != SIZE && SHA256 != UTF8 && SIZE != UTF8
  {
    NamesIncrease(true);
    var n := Names(true);
    assert forall i, j :: 0 <= i < j < |n| ==> Less(n[i], n[j]);
    forall i, j | 0 <= i < j < |n|
      ensures n[i] != n[j]
    {
      LessIrreflexive(n[i]);
    }
    hide Less;
    assert n[0] == BASE64 && n[1] == ENCODING && n[2] == SHA256 && n[3] == SIZE && n[4] == UTF8;
  }

  /** The four members every envelope of `b` must have. */
  predicate HasRequired(members: seq<Member>, b: bytes)
  {
    && Member(BASE64, Str(Base64.Encode(b))) in members && Member(ENCODING, Str(BASE64)) in members
    && Member(SHA256, Str(Sha256Hex(b))) in members && Member(SIZE, Integer(|b|)) in members
  }

  /** Whatever a member of `members` is called, it says what the envelope of `b` says under that name. */
  predicate OnlyEnvelope(members: seq<Member>, b: bytes)
  {
    forall i :: 0 <= i < |members| ==> members[i] in Envelope(b)
  }

  lemma NamesAt(withText: bool)
    ensures var n := Names(withText);
            && |n| == (if withText then 5 else 4)
            && n[0] == BASE64 && n[1] == ENCODING && n[2] == SHA256 && n[3] == SIZE && (withText ==> n[4] == UTF8)
  {
  }

  lemma ValuesAt(b: bytes)
    ensures Values(b)[0] == Str(Base64.Encode(b))
    ensures Values(b)[1] == Str(BASE64)
    ensures Values(b)[2] == Str(Sha256Hex(b))
  {
    hide Sha256Hex, Base64.Encode, Utf8.Valid, Text, Names;
  }

  lemma LastValuesAt(b: bytes)
    ensures Values(b)[3] == Integer(|b|)
    ensures Utf8.Valid(b) ==> Values(b)[4] == Str(b)
  {
    hide Sha256Hex, Base64.Encode, Utf8.Valid, Text, Names;
  }

  lemma EnvelopeAt(b: bytes)
    ensures |Envelope(b)| == if Utf8.Valid(b) then 5 else 4
    ensures Envelope(b)[0] == Member(BASE64, Str(Base64.Encode(b)))
    ensures Envelope(b)[1] == Member(ENCODING, Str(BASE64))
    ensures Envelope(b)[2] == Member(SHA256, Str(Sha256Hex(b)))
    ensures Envelope(b)[3] == Member(SIZE, Integer(|b|))
    ensures Utf8.Valid(b) ==> Envelope(b)[4] == Member(UTF8, Str(b))
  {
    NamesAt(Utf8.Valid(b));
    ValuesAt(b);
    LastValuesAt(b);
    hide Names, Values, Sha256Hex, Base64.Encode, Utf8.Valid, Text;
  }

  lemma EnvelopeHas(b: bytes, m: Member)
    ensures m in Envelope(b) <==>
            || m == Member(BASE64, Str(Base64.Encode(b))) || m == Member(ENCODING, Str(BASE64))
            || m == Member(SHA256, Str(Sha256Hex(b))) || m == Member(SIZE, Integer(|b|))
            || (Utf8.Valid(b) && m == Member(UTF8, Str(b)))
  {
    EnvelopeAt(b);
    hide Envelope, Sha256Hex, Base64.Encode, Utf8.Valid, Text;
    assert Envelope(b)[0] in Envelope(b) && Envelope(b)[1] in Envelope(b);
    assert Envelope(b)[2] in Envelope(b) && Envelope(b)[3] in Envelope(b);
  }

  lemma CanonicalIs(text: bytes, b: bytes)
    ensures Base64.CanonicalDecode(text) == Some(b) <==> text == Base64.Encode(b)
  {
    hide Base64.Encode, Base64.Decode;
    Base64.DecodeEncode(b);
  }

  lemma DecodedHasRequired(members: seq<Member>, b: bytes)
    requires DistinctNames(members) && DecodeByteValue(Object(members)) == Some(b)
    ensures HasRequired(members, b)
  {
    hide Sha256Hex, Base64.Encode, Base64.CanonicalDecode, Utf8.Valid, DistinctNames, Envelope, Lookup, Named;
    var encoded := Lookup(members, BASE64).value;
    CanonicalIs(encoded.text, b);
    LookupIs(members, BASE64, encoded);
    LookupIs(members, ENCODING, Str(BASE64));
    LookupIs(members, SHA256, Str(Sha256Hex(b)));
    LookupIs(members, SIZE, Integer(|b|));
  }

  /** A member of an accepted object carries the value that was looked up under its name. */
  lemma DecodedMember(members: seq<Member>, b: bytes, i: nat)
    requires DistinctNames(members) && DecodeByteValue(Object(members)) == Some(b) && i < |members|
    ensures members[i] in Envelope(b)
  {
    hide Sha256Hex, Base64.Encode, Base64.CanonicalDecode, Utf8.Valid, DistinctNames, Envelope, Lookup, Named;
    var m := members[i];
    assert KnownName(m.name);
    CanonicalIs(Lookup(members, BASE64).value.text, b);
    LookupMember(members, i);
    EnvelopeHas(b, m);
  }

  lemma DecodedHasMembers(members: seq<Member>, b: bytes)
    requires DistinctNames(members) && DecodeByteValue(Object(members)) == Some(b)
    ensures HasRequired(members, b) && OnlyEnvelope(members, b)
  {
    hide HasRequired, DistinctNames, DecodeByteValue, Envelope;
    DecodedHasRequired(members, b);
    forall i | 0 <= i < |members|
      ensures members[i] in Envelope(b)
    {
      DecodedMember(members, b, i);
    }
  }

  lemma MembersDecode(members: seq<Member>, b: bytes)
    requires DistinctNames(members) && HasRequired(members, b) && OnlyEnvelope(members, b)
    ensures DecodeByteValue(Object(members)) == Some(b)
  {
    hide Sha256Hex, Base64.Encode, Base64.CanonicalDecode, Utf8.Valid, DistinctNames, Envelope, Lookup, Named;
    CanonicalIs(Base64.Encode(b), b);
    LookupIs(members, BASE64, Str(Base64.Encode(b)));
    LookupIs(members, ENCODING, Str(BASE64));
    LookupIs(members, SHA256, Str(Sha256Hex(b)));
    LookupIs(members, SIZE, Integer(|b|));
    forall i | 0 <= i < |members|
      ensures KnownName(members[i].name)
    {
      EnvelopeHas(b, members[i]);
    }
    if Lookup(members, UTF8).Some? {
      var text := Lookup(members, UTF8).value;
      LookupIs(members, UTF8, text);
      EnvelopeHas(b, Member(UTF8, text));
      NamesDiffer();
    }
  }

  /** The consumer decodes an object to `b` exactly when it is the producer's envelope of `b`, give or take the text. */
  lemma DecodesIffEnvelope(members: seq<Member>, b: bytes)
    requires DistinctNames(members)
    ensures DecodeByteValue(Object(members)) == Some(b) <==> HasRequired(members, b) && OnlyEnvelope(members, b)
  {
    hide DecodeByteValue, HasRequired, OnlyEnvelope, DistinctNames;
    if DecodeByteValue(Object(members)) == Some(b) {
      DecodedHasMembers(members, b);
    }
    if HasRequired(members, b) && OnlyEnvelope(members, b) {
      MembersDecode(members, b);
    }
  }

  /** The same for whatever object stands in a text that was parsed, at whatever depth. */
  lemma ParsedDecodesIffEnvelope(text: bytes, members: seq<Member>, b: bytes)
    requires ParseText(text).Some? && Holds(ParseText(text).value, Object(members))
    ensures DecodeByteValue(Object(members)) == Some(b) <==> HasRequired(members, b) && OnlyEnvelope(members, b)
  {
    hide DecodeByteValue, HasRequired, OnlyEnvelope, ParseText, Holds;
    ParsedUnambiguous(text);
    PartUnambiguous(ParseText(text).value, Object(members));
    DecodesIffEnvelope(members, b);
  }

  lemma EnvelopeDistinct(b: bytes)
    ensures DistinctNames(Envelope(b))
  {
    hide Less, Sha256Hex, Base64.Encode, Utf8.Valid;
    var names := Names(Utf8.Valid(b));
    NamesIncrease(Utf8.Valid(b));
    forall i, j | 0 <= i < j < |names|
      ensures names[i] != names[j]
    {
      LessIrreflexive(names[i]);
      assert Less(names[i], names[j]);
    }
  }

  /** Printing, parsing and decoding give the octets back; the text member is there exactly for well-formed UTF-8. */
  lemma ByteValueRoundTrip(b: bytes)
    ensures ParseText(EnvelopeText(b)) == Some(Object(Envelope(b)))
    ensures DecodeByteValue(Object(Envelope(b))) == Some(b)
    ensures Lookup(Envelope(b), UTF8) == if Utf8.Valid(b) then Some(Str(b)) else None
  {
    hide ParseText, EnvelopeText, Envelope, DecodeByteValue, Utf8.Valid, Lookup, Named, Printed, DistinctNames,
      Sha256Hex, Base64.Encode;
    EnvelopePrinted(b);
    PrintedReads(EnvelopeText(b), Object(Envelope(b)));
    EnvelopeDistinct(b);
    forall m: Member
      ensures m in Envelope(b) <==>
              || m == Member(BASE64, Str(Base64.Encode(b))) || m == Member(ENCODING, Str(BASE64))
              || m == Member(SHA256, Str(Sha256Hex(b))) || m == Member(SIZE, Integer(|b|))
              || (Utf8.Valid(b) && m == Member(UTF8, Str(b)))
    {
      EnvelopeHas(b, m);
    }
    DecodesIffEnvelope(Envelope(b), b);
    NamesDiffer();
    LookupIs(Envelope(b), UTF8, Str(b));
    NotFound(Envelope(b), UTF8);
  }
}
