/** UTF-8 as sections 3 and 4 of RFC 3629 define it, and the recogniser of the byte envelope. */
module Utf8 {
  import opened Bytes

  /** A Unicode scalar value: a code point that is not a surrogate. */
  type scalar = x: int | 0 <= x <= 0x10ffff && !(0xd800 <= x <= 0xdfff)

  /** The table of section 3 of RFC 3629. */
  function EncodeScalar(v: scalar): (r: bytes)
    ensures 1 <= |r| <= 4
  {
    if v < 0x80 then [v]
    else if v < 0x800 then [0xc0 + v / 0x40, 0x80 + v % 0x40]
    else if v < 0x10000 then [0xe0 + v / 0x1000, 0x80 + v / 0x40 % 0x40, 0x80 + v % 0x40]
    else [0xf0 + v / 0x40000, 0x80 + v / 0x1000 % 0x40, 0x80 + v / 0x40 % 0x40, 0x80 + v % 0x40]
  }

  function EncodeAll(text: seq<scalar>): (r: bytes)
  {
    if text == [] then [] else EncodeScalar(text[0]) + EncodeAll(text[1..])
  }

  /** Section 1 of RFC 3629: the order of the encodings is that of the code points. */
  lemma OrderKept(v: scalar, w: scalar)
    requires v < w
    ensures Less(EncodeScalar(v), EncodeScalar(w))
  {
    hide Less;
    var a, b := EncodeScalar(v), EncodeScalar(w);
    if a[0] < b[0] {
      LessAt(a, b, 0);
    } else {
      LeadsAlike(v, w);
      if a[1] < b[1] {
        assert a[..1] == b[..1];
        LessAt(a, b, 1);
      } else {
        SecondsAlike(v, w);
        if a[2] < b[2] {
          assert a[..2] == b[..2];
          LessAt(a, b, 2);
        } else {
          ThirdsAlike(v, w);
          assert a[..3] == b[..3];
          LessAt(a, b, 3);
        }
      }
    }
  }

  lemma LeadsAlike(v: scalar, w: scalar)
    requires v < w && EncodeScalar(v)[0] >= EncodeScalar(w)[0]
    ensures |EncodeScalar(v)| == |EncodeScalar(w)| >= 2 && EncodeScalar(v)[0] == EncodeScalar(w)[0]
  {
  }

  /** Where all higher digits agree, the order is that of the next. */
  lemma NextDigit(a: int, b: int, x: int, y: int, d: int, e: int)
    requires a == x * 0x40 + d && b == y * 0x40 + e && x == y && a <= b
    ensures d <= e && (d == e ==> a == b)
  {
  }

  lemma SecondsAlike(v: scalar, w: scalar)
    requires v < w && |EncodeScalar(v)| == |EncodeScalar(w)| >= 2 && EncodeScalar(v)[0] == EncodeScalar(w)[0]
    requires EncodeScalar(v)[1] >= EncodeScalar(w)[1]
    ensures |EncodeScalar(v)| >= 3 && EncodeScalar(v)[1] == EncodeScalar(w)[1]
  {
    EncodingDigits(v);
    EncodingDigits(w);
    if v < 0x800 {
      NextDigit(v, w, v / 0x40, w / 0x40, v % 0x40, w % 0x40);
    } else if v < 0x10000 {
      NextDigit(v / 0x40, w / 0x40, v / 0x1000, w / 0x1000, v / 0x40 % 0x40, w / 0x40 % 0x40);
    } else {
      NextDigit(v / 0x1000, w / 0x1000, v / 0x40000, w / 0x40000, v / 0x1000 % 0x40, w / 0x1000 % 0x40);
    }
  }

  lemma ThirdsAlike(v: scalar, w: scalar)
    requires v < w && |EncodeScalar(v)| == |EncodeScalar(w)| >= 3
    requires EncodeScalar(v)[0] == EncodeScalar(w)[0] && EncodeScalar(v)[1] == EncodeScalar(w)[1]
    requires EncodeScalar(v)[2] >= EncodeScalar(w)[2]
    ensures |EncodeScalar(v)| == 4 && EncodeScalar(v)[2] == EncodeScalar(w)[2]
    ensures EncodeScalar(v)[3] < EncodeScalar(w)[3]
  {
    EncodingDigits(v);
    EncodingDigits(w);
    if v >= 0x10000 {
      NextDigit(v / 0x40, w / 0x40, v / 0x1000, w / 0x1000, v / 0x40 % 0x40, w / 0x40 % 0x40);
    }
    NextDigit(v, w, v / 0x40, w / 0x40, v % 0x40, w % 0x40);
  }

  /** A decoded scalar value and the number of octets it took. */
  datatype Decoded = Decoded(value: scalar, size: nat)

  /** What a lead octet announces: continuation octets, payload and smallest admissible value. */
  datatype Lead = Lead(continuations: nat, payload: nat, minimum: nat)

  function ClassifyLead(lead: byte): (r: Option<Lead>)
  {
    if lead / 32 == 6 then Some(Lead(1, lead % 32, 0x80))
    else if lead / 16 == 14 then Some(Lead(2, lead % 16, 0x800))
    else if lead / 8 == 30 then Some(Lead(3, lead % 8, 0x10000))
    else None
  }

  /** Shifts six payload bits in for each continuation octet. */
  function Accumulate(codePoint: nat, rest: bytes): (r: Option<nat>)
    decreases rest
  {
    if rest == [] then Some(codePoint)
    else if rest[0] / 64 != 2 then None
    else Accumulate(codePoint * 64 + rest[0] % 64, rest[1..])
  }

  predicate Admissible(codePoint: nat, minimum: nat)
  {
    minimum <= codePoint <= 0x10ffff && !(0xd800 <= codePoint <= 0xdfff)
  }

  /** One step of the recogniser at the start of `b`. */
  function DecodeFirst(b: bytes): (r: Option<Decoded>)
    ensures r.Some? ==> 1 <= r.value.size <= |b|
  {
    if b == [] then None
    else if b[0] <= 0x7f then Some(Decoded(b[0], 1))
    else
      var lead := ClassifyLead(b[0]);
      if lead.None? || |b| <= lead.value.continuations then None
      else
        var n := lead.value.continuations;
        var codePoint := Accumulate(lead.value.payload, b[1..n + 1]);
        if codePoint.None? || !Admissible(codePoint.value, lead.value.minimum) then None
        else Some(Decoded(codePoint.value, n + 1))
  }

  predicate Valid(b: bytes)
  {
    b == [] || (DecodeFirst(b).Some? && Valid(b[DecodeFirst(b).value.size..]))
  }

  // Two, three and four octets: the recogniser's arithmetic inverts the table.

  lemma Accumulate1(p: nat, c: byte)
    ensures Accumulate(p, [c]) == if c / 64 == 2 then Some(p * 64 + c % 64) else None
  {
  }

  lemma Accumulate2(p: nat, c: byte, d: byte)
    ensures Accumulate(p, [c, d]) ==
            if c / 64 == 2 && d / 64 == 2 then Some((p * 64 + c % 64) * 64 + d % 64) else None
  {
    assert [c, d][1..] == [d];
    Accumulate1(p * 64 + c % 64, d);
  }

  lemma Accumulate3(p: nat, c: byte, d: byte, e: byte)
    ensures Accumulate(p, [c, d, e]) ==
            if c / 64 == 2 && d / 64 == 2 && e / 64 == 2
            then Some(((p * 64 + c % 64) * 64 + d % 64) * 64 + e % 64) else None
  {
    assert [c, d, e][1..] == [d, e];
    Accumulate2(p * 64 + c % 64, d, e);
  }

  /** The continuation octets of a lead, as the recogniser reads them. */
  function Payload(b: bytes, lead: Lead): (r: Option<nat>)
    requires 1 <= lead.continuations <= 3 && |b| == lead.continuations + 1
  {
    Accumulate(lead.payload, b[1..])
  }

  lemma PayloadIs(b: bytes, lead: Lead)
    requires 1 <= lead.continuations <= 3 && |b| == lead.continuations + 1
    ensures Payload(b, lead).Some? <==> forall i :: 1 <= i < |b| ==> b[i] / 64 == 2
    ensures Payload(b, lead).Some? ==>
              (Payload(b, lead).value ==
               if |b| == 2 then lead.payload * 64 + b[1] % 64
               else if |b| == 3 then (lead.payload * 64 + b[1] % 64) * 64 + b[2] % 64
               else ((lead.payload * 64 + b[1] % 64) * 64 + b[2] % 64) * 64 + b[3] % 64)
  {
    if |b| == 2 {
      assert b[1..] == [b[1]];
      Accumulate1(lead.payload, b[1]);
    } else if |b| == 3 {
      assert b[1..] == [b[1], b[2]];
      Accumulate2(lead.payload, b[1], b[2]);
    } else {
      assert b[1..] == [b[1], b[2], b[3]];
      Accumulate3(lead.payload, b[1], b[2], b[3]);
    }
  }

  lemma EncodingDigits(v: nat)
    ensures v == v / 0x40 * 64 + v % 0x40
    ensures v / 0x40 == v / 0x1000 * 64 + v / 0x40 % 0x40
    ensures v / 0x1000 == v / 0x40000 * 64 + v / 0x1000 % 0x40
  {
  }

  /** Reading the encoding of a multi-octet scalar value gives the value back. */
  lemma PayloadOfEncoding(v: scalar)
    requires v >= 0x80
    ensures var b := EncodeScalar(v); var lead := ClassifyLead(b[0]);
            lead.Some? && b[0] > 0x7f && lead.value.continuations == |b| - 1
            && Payload(b, lead.value) == Some(v) && Admissible(v, lead.value.minimum)
  {
    hide Payload;
    var b := EncodeScalar(v);
    LeadOfEncoding(v);
    var lead := ClassifyLead(b[0]).value;
    PayloadIs(b, lead);
    EncodingDigits(v);
  }

  lemma LeadOfEncoding(v: scalar)
    requires v >= 0x80
    ensures var b := EncodeScalar(v);
            && b[0] > 0x7f && forall i :: 1 <= i < |b| ==> b[i] / 64 == 2 && b[i] % 64 == b[i] - 0x80
    ensures ClassifyLead(EncodeScalar(v)[0]) ==
      Some(if v < 0x800 then Lead(1, v / 0x40, 0x80)
           else if v < 0x10000 then Lead(2, v / 0x1000, 0x800)
           else Lead(3, v / 0x40000, 0x10000))
  {
  }

  lemma Digits(v: nat, high: nat, low: nat)
    requires v == high * 64 + low && low < 64
    ensures v / 64 == high && v % 64 == low
  {
  }

  lemma LeadOctet(b: byte)
    requires ClassifyLead(b).Some?
    ensures var lead := ClassifyLead(b).value;
            b == (if lead.continuations == 1 then 0xc0 else if lead.continuations == 2 then 0xe0 else 0xf0)
              + lead.payload
            && lead.payload < (if lead.continuations == 1 then 32 else if lead.continuations == 2 then 16 else 8)
  {
  }

  /** A non-shortest form never passes: what passes is the encoding of its own value. */
  lemma EncodingOfPayload(b: bytes, lead: Lead)
    requires |b| >= 2 && ClassifyLead(b[0]) == Some(lead) && |b| == lead.continuations + 1
    requires Payload(b, lead).Some? && Admissible(Payload(b, lead).value, lead.minimum)
    ensures EncodeScalar(Payload(b, lead).value) == b
  {
    hide Payload;
    PayloadIs(b, lead);
    LeadOctet(b[0]);
    var v := Payload(b, lead).value;
    var d1 := b[1] % 64;
    assert b[1] == 0x80 + d1;
    if |b| == 2 {
      Digits(v, lead.payload, d1);
      assert b == [b[0], b[1]];
    } else if |b| == 3 {
      var d2 := b[2] % 64;
      assert b[2] == 0x80 + d2;
      Digits(v, lead.payload * 64 + d1, d2);
      Digits(v / 64, lead.payload, d1);
      assert v / 0x1000 == v / 64 / 64;
      assert b == [b[0], b[1], b[2]];
    } else {
      FourOctets(b, lead, v);
    }
  }

  lemma FourOctets(b: bytes, lead: Lead, v: scalar)
    requires |b| == 4 && ClassifyLead(b[0]) == Some(lead) && v >= 0x10000
    requires forall i :: 1 <= i < 4 ==> b[i] / 64 == 2
    requires v == ((lead.payload * 64 + b[1] % 64) * 64 + b[2] % 64) * 64 + b[3] % 64
    requires lead.continuations == 3
    ensures EncodeScalar(v) == b
  {
    LeadOctet(b[0]);
    hide ClassifyLead;
    var d1, d2, d3 := b[1] % 64, b[2] % 64, b[3] % 64;
    var v1: nat := lead.payload * 64 + d1;
    var v2: nat := v1 * 64 + d2;
    Digits(v, v2, d3);
    Digits(v2, v1, d2);
    Digits(v1, lead.payload, d1);
    assert v / 0x1000 == v / 64 / 64 == v1;
    assert v / 0x40000 == v1 / 64;
    assert b == [b[0], b[1], b[2], b[3]];
  }

  lemma DecodeFirstOfEncoding(v: scalar, rest: bytes)
    ensures DecodeFirst(EncodeScalar(v) + rest) == Some(Decoded(v, |EncodeScalar(v)|))
  {
    hide ClassifyLead, Accumulate, Admissible;
    var b := EncodeScalar(v) + rest;
    if v >= 0x80 {
      PayloadOfEncoding(v);
      hide EncodeScalar;
      assert b[0] == EncodeScalar(v)[0];
      assert b[1..|EncodeScalar(v)|] == EncodeScalar(v)[1..];
    }
  }

  lemma EncodingOfDecodeFirst(b: bytes)
    requires DecodeFirst(b).Some?
    ensures EncodeScalar(DecodeFirst(b).value.value) == b[..DecodeFirst(b).value.size]
  {
    hide Accumulate, Admissible;
    if b[0] > 0x7f {
      var lead := ClassifyLead(b[0]).value;
      var head := b[..lead.continuations + 1];
      assert head[1..] == b[1..lead.continuations + 1];
      hide ClassifyLead, EncodeScalar;
      EncodingOfPayload(head, lead);
    }
  }

  /** Every encoded text is accepted. */
  lemma {:induction false} EncodedIsValid(text: seq<scalar>)
    ensures Valid(EncodeAll(text))
  {
    if text != [] {
      hide EncodeScalar, DecodeFirst;
      var rest := EncodeAll(text[1..]);
      DecodeFirstOfEncoding(text[0], rest);
      EncodedIsValid(text[1..]);
      assert EncodeAll(text)[|EncodeScalar(text[0])|..] == rest;
    }
  }

  lemma EncodeAllCons(v: scalar, rest: seq<scalar>)
    ensures EncodeAll([v] + rest) == EncodeScalar(v) + EncodeAll(rest)
  {
    hide EncodeScalar;
    assert ([v] + rest)[1..] == rest;
  }

  /** An accepted octet string starts with an encoded scalar value and goes on with an accepted one. */
  lemma ValidSplit(b: bytes) returns (v: scalar, rest: bytes)
    requires Valid(b) && b != []
    ensures b == EncodeScalar(v) + rest && Valid(rest) && |rest| < |b|
  {
    EncodingOfDecodeFirst(b);
    var first := DecodeFirst(b).value;
    v, rest := first.value, b[first.size..];
    hide EncodeScalar, DecodeFirst;
  }

  /** Every accepted octet string is an encoded text. */
  lemma {:induction false} ValidIsEncoded(b: bytes) returns (text: seq<scalar>)
    requires Valid(b)
    ensures EncodeAll(text) == b
    decreases |b|
  {
    hide Valid, EncodeScalar;
    if b == [] {
      text := [];
    } else {
      hide EncodeAll;
      var v, rest := ValidSplit(b);
      text := ValidIsEncoded(rest);
      EncodeAllCons(v, text);
      text := [v] + text;
    }
  }

  /** No octet string encodes two texts. */
  lemma {:induction false} EncodingIsUnique(left: seq<scalar>, right: seq<scalar>)
    requires EncodeAll(left) == EncodeAll(right)
    ensures left == right
  {
    hide EncodeScalar, DecodeFirst;
    if left != [] && right != [] {
      DecodeFirstOfEncoding(left[0], EncodeAll(left[1..]));
      DecodeFirstOfEncoding(right[0], EncodeAll(right[1..]));
      var size := |EncodeScalar(left[0])|;
      assert EncodeAll(left)[size..] == EncodeAll(left[1..]);
      assert EncodeAll(right)[size..] == EncodeAll(right[1..]);
      EncodingIsUnique(left[1..], right[1..]);
      assert left == [left[0]] + left[1..] && right == [right[0]] + right[1..];
    }
  }

  lemma ValidIffEncoded(b: bytes)
    ensures Valid(b) <==> exists text: seq<scalar> :: EncodeAll(text) == b
  {
    hide Valid, EncodeAll;
    if Valid(b) {
      var text := ValidIsEncoded(b);
    }
    if exists text: seq<scalar> :: EncodeAll(text) == b {
      var text: seq<scalar> :| EncodeAll(text) == b;
      EncodedIsValid(text);
    }
  }

  /** The recogniser's inner loop over continuation octets. */
  method ReadContinuations(bytes: bytes, index: nat, lead: Lead) returns (codePoint: Option<nat>)
    requires index + lead.continuations < |bytes|
    ensures codePoint == Accumulate(lead.payload, bytes[index + 1..index + lead.continuations + 1])
  {
    var last := index + lead.continuations + 1;
    var value: nat := lead.payload;
    for offset := 1 to lead.continuations + 1
      invariant Accumulate(value, bytes[index + offset..last]) == Accumulate(lead.payload, bytes[index + 1..last])
    {
      var next := bytes[index + offset];
      ghost var rest := bytes[index + offset..last];
      assert rest[1..] == bytes[index + offset + 1..last];
      if next / 64 != 2 {
        return None;
      }
      value := value * 64 + next % 64;
    }
    return Some(value);
  }

  /** Accepts exactly the octet strings that encode a sequence of Unicode scalar values. */
  method IsValidUtf8(bytes: bytes) returns (valid: bool)
    ensures valid <==> exists text: seq<scalar> :: EncodeAll(text) == bytes
    ensures valid == Valid(bytes)
  {
    hide ClassifyLead, Accumulate, EncodeAll, EncodeScalar, Admissible;
    ValidIffEncoded(bytes);
    var index := 0;
    assert bytes[0..] == bytes;
    while index < |bytes|
      invariant index <= |bytes|
      invariant Valid(bytes) == Valid(bytes[index..])
    {
      ghost var rest := bytes[index..];
      if bytes[index] <= 0x7f {
        assert rest[1..] == bytes[index + 1..];
        index := index + 1;
        continue;
      }
      var lead := ClassifyLead(bytes[index]);
      if lead.None? || index + lead.value.continuations >= |bytes| {
        return false;
      }
      var n := lead.value.continuations;
      assert rest[1..n + 1] == bytes[index + 1..index + n + 1];
      assert rest[n + 1..] == bytes[index + n + 1..];
      var codePoint := ReadContinuations(bytes, index, lead.value);
      if codePoint.None? || !Admissible(codePoint.value, lead.value.minimum) {
        return false;
      }
      index := index + n + 1;
    }
    return true;
  }
}
