/** Base64 as sections 3.5 and 4 of RFC 4648 define it, the encoder and the canonical decoder. */
module Base64 {
  import opened Bytes

  const PAD: byte := 0x3d

  /** Table 1 of RFC 4648. */
  function Symbol(v: nat): (c: byte)
    requires v < 64
    ensures c != PAD
  {
    if v < 26 then 0x41 + v
    else if v < 52 then 0x61 + (v - 26)
    else if v < 62 then 0x30 + (v - 52)
    else if v == 62 then 0x2b
    else 0x2f
  }

  /** The inverse of Table 1. */
  function Value(c: byte): (v: Option<nat>)
    ensures v.Some? ==> v.value < 64 && Symbol(v.value) == c
    ensures forall u: nat | u < 64 && Symbol(u) == c :: v == Some(u)
  {
    if 0x41 <= c <= 0x5a then Some(c - 0x41)
    else if 0x61 <= c <= 0x7a then Some(c - 0x61 + 26)
    else if 0x30 <= c <= 0x39 then Some(c - 0x30 + 52)
    else if c == 0x2b then Some(62)
    else if c == 0x2f then Some(63)
    else None
  }

  /** Three octets as four six-bit groups. */
  function Quad(b0: byte, b1: byte, b2: byte): (q: bytes)
    ensures |q| == 4
  {
    [Symbol(b0 / 4), Symbol(b0 % 4 * 16 + b1 / 16), Symbol(b1 % 16 * 4 + b2 / 64), Symbol(b2 % 64)]
  }

  /** Section 4: a final group of one or two octets is padded with `=`. */
  function Tail(b: bytes): (q: bytes)
    requires |b| < 3
    ensures |q| == if b == [] then 0 else 4
  {
    if |b| == 0 then []
    else if |b| == 1 then Quad(b[0], 0, 0)[..2] + [PAD, PAD]
    else Quad(b[0], b[1], 0)[..3] + [PAD]
  }

  function Encode(b: bytes): (s: bytes)
  {
    if |b| < 3 then Tail(b) else Quad(b[0], b[1], b[2]) + Encode(b[3..])
  }

  // What the encoding says, without the encoder.

  /** The characters in the order of their values. */
  lemma SymbolIs(v: nat)
    requires v < 64
    ensures v < 26 ==> Symbol(v) == "ABCDEFGHIJKLMNOPQRSTUVWXYZ"[v] as int
    ensures 26 <= v < 52 ==> Symbol(v) == "abcdefghijklmnopqrstuvwxyz"[v - 26] as int
    ensures 52 <= v ==> Symbol(v) == "0123456789+/"[v - 52] as int
  {
  }

  /** The octet at `i`, with zeros behind the last one. */
  function OctetAt(b: bytes, i: nat): byte
  {
    if i < |b| then b[i] else 0
  }

  /** The number a character stands for; padding stands for zero. */
  function Number(c: byte): nat
  {
    if Value(c).Some? then Value(c).value else 0
  }

  /** The same twenty-four bits, six in each character and eight in each octet. */
  predicate Same(c0: byte, c1: byte, c2: byte, c3: byte, b0: byte, b1: byte, b2: byte)
  {
    Number(c0) * 0x40000 + Number(c1) * 0x1000 + Number(c2) * 0x40 + Number(c3) == b0 * 0x10000 + b1 * 0x100 + b2
  }

  predicate SameBits(b: bytes, s: bytes, i: nat)
    requires 4 * i + 4 <= |s|
  {
    Same(s[4 * i], s[4 * i + 1], s[4 * i + 2], s[4 * i + 3], OctetAt(b, 3 * i), OctetAt(b, 3 * i + 1),
         OctetAt(b, 3 * i + 2))
  }

  /** A character is padding exactly where all its bits lie behind the last octet. */
  predicate PaddedRight(b: bytes, s: bytes, i: nat)
    requires 4 * i + 4 <= |s|
  {
    && s[4 * i] != 0x3d && s[4 * i + 1] != 0x3d
    && (s[4 * i + 2] == 0x3d <==> 3 * i + 1 >= |b|) && (s[4 * i + 3] == 0x3d <==> 3 * i + 2 >= |b|)
  }

  lemma QuadNumbers(b0: byte, b1: byte, b2: byte)
    ensures var q := Quad(b0, b1, b2);
            && Number(q[0]) == b0 / 4 && Number(q[1]) == b0 % 4 * 16 + b1 / 16
            && Number(q[2]) == b1 % 16 * 4 + b2 / 64 && Number(q[3]) == b2 % 64 && Number(PAD) == 0
            && q[0] != PAD && q[1] != PAD && q[2] != PAD && q[3] != PAD
  {
    QuadValues(b0, b1, b2);
    hide Value, Symbol;
  }

  lemma SixAndEight(b0: byte, b1: byte, b2: byte)
    ensures b0 / 4 * 0x40000 + (b0 % 4 * 16 + b1 / 16) * 0x1000 + (b1 % 16 * 4 + b2 / 64) * 0x40 + b2 % 64
         == b0 * 0x10000 + b1 * 0x100 + b2
  {
  }

  lemma QuadBits(b0: byte, b1: byte, b2: byte)
    ensures var q := Quad(b0, b1, b2);
            && Same(q[0], q[1], q[2], q[3], b0, b1, b2)
            && q[0] != PAD && q[1] != PAD && q[2] != PAD && q[3] != PAD
  {
    QuadNumbers(b0, b1, b2);
    SixAndEight(b0, b1, b2);
    hide Number, Quad;
  }

  /** Padding says what the last characters would have said. */
  lemma PaddedOnce(b0: byte, b1: byte)
    ensures var q := Quad(b0, b1, 0); Same(q[0], q[1], q[2], PAD, b0, b1, 0)
  {
    QuadNumbers(b0, b1, 0);
    SixAndEight(b0, b1, 0);
    hide Number, Quad;
  }

  lemma PaddedTwice(b0: byte)
    ensures var q := Quad(b0, 0, 0); Same(q[0], q[1], PAD, PAD, b0, 0, 0)
  {
    QuadNumbers(b0, 0, 0);
    SixAndEight(b0, 0, 0);
    hide Number, Quad;
  }

  lemma TailBits(b: bytes)
    requires 1 <= |b| < 3
    ensures SameBits(b, Tail(b), 0) && PaddedRight(b, Tail(b), 0)
  {
    hide Quad, Same;
    QuadBits(b[0], OctetAt(b, 1), 0);
    PaddedOnce(b[0], OctetAt(b, 1));
    PaddedTwice(b[0]);
  }

  /** The encoding holds, in groups of four characters, the bits of the input in groups of three octets. */
  lemma {:induction false} EncodeKeepsBits(b: bytes, i: nat)
    requires 3 * i < |b|
    ensures |Encode(b)| >= 4 * i + 4
    ensures SameBits(b, Encode(b), i) && PaddedRight(b, Encode(b), i)
  {
    hide Quad, Tail, Same;
    EncodeLength(b);
    if |b| < 3 {
      TailBits(b);
    } else {
      FirstGroup(b);
      if i > 0 {
        EncodeKeepsBits(b[3..], i - 1);
        assert Encode(b)[4..] == Encode(b[3..]);
        hide Encode;
        ShiftedBits(b, Encode(b), i);
      }
    }
  }

  lemma FirstGroup(b: bytes)
    requires |b| >= 3
    ensures |Encode(b)| >= 4 && SameBits(b, Encode(b), 0) && PaddedRight(b, Encode(b), 0)
    ensures Encode(b)[4..] == Encode(b[3..])
  {
    hide Quad, Tail, Same;
    QuadBits(b[0], b[1], b[2]);
    var q, rest := Quad(b[0], b[1], b[2]), Encode(b[3..]);
    assert Encode(b) == q + rest;
    hide Encode;
    assert (q + rest)[0] == q[0] && (q + rest)[1] == q[1] && (q + rest)[2] == q[2] && (q + rest)[3] == q[3];
  }

  lemma ShiftedBits(b: bytes, s: bytes, i: nat)
    requires i > 0 && |b| >= 3 && 4 * i + 4 <= |s|
    requires SameBits(b[3..], s[4..], i - 1) && PaddedRight(b[3..], s[4..], i - 1)
    ensures SameBits(b, s, i) && PaddedRight(b, s, i)
  {
    hide Same;
    var more := s[4..];
    assert more[4 * (i - 1)] == s[4 * i] && more[4 * (i - 1) + 1] == s[4 * i + 1];
    assert more[4 * (i - 1) + 2] == s[4 * i + 2] && more[4 * (i - 1) + 3] == s[4 * i + 3];
    assert OctetAt(b[3..], 3 * (i - 1)) == OctetAt(b, 3 * i);
    assert OctetAt(b[3..], 3 * (i - 1) + 1) == OctetAt(b, 3 * i + 1);
    assert OctetAt(b[3..], 3 * (i - 1) + 2) == OctetAt(b, 3 * i + 2);
  }

  /** Four characters for every three octets or part thereof. */
  lemma {:induction false} EncodeLength(b: bytes)
    ensures |Encode(b)| == 4 * ((|b| + 2) / 3)
  {
    hide Quad, Tail;
    if |b| >= 3 {
      EncodeLength(b[3..]);
    }
  }

  /** The three octets behind four six-bit groups. */
  function Octets(v0: nat, v1: nat, v2: nat, v3: nat): (b: bytes)
    requires v0 < 64 && v1 < 64 && v2 < 64 && v3 < 64
    ensures |b| == 3
  {
    [v0 * 4 + v1 / 16, v1 % 16 * 16 + v2 / 4, v2 % 4 * 64 + v3]
  }

  /** The octets behind one group of four characters; padding ends the text. */
  function DecodeQuad(s: bytes, last: bool): (r: Option<bytes>)
    requires |s| == 4
  {
    var v0, v1, v2, v3 := Value(s[0]), Value(s[1]), Value(s[2]), Value(s[3]);
    if v0.None? || v1.None? then None
    else if v2.Some? && v3.Some? then Some(Octets(v0.value, v1.value, v2.value, v3.value))
    else if last && v2.Some? && s[3] == PAD then Some(Octets(v0.value, v1.value, v2.value, 0)[..2])
    else if last && s[2] == PAD && s[3] == PAD then Some(Octets(v0.value, v1.value, 0, 0)[..1])
    else None
  }

  /** A decoder that does not look at the bits the padding leaves over. */
  function Decode(s: bytes): (r: Option<bytes>)
  {
    if s == [] then Some([])
    else if |s| < 4 then None
    else
      var first := DecodeQuad(s[..4], |s| == 4);
      var rest := Decode(s[4..]);
      if first.None? || rest.None? then None else Some(first.value + rest.value)
  }

  /** What the consumer accepts: the text must be what encoding its octets gives back. */
  function CanonicalDecode(s: bytes): (r: Option<bytes>)
  {
    var r := Decode(s);
    if r.Some? && Encode(r.value) == s then r else None
  }

  lemma OctetArithmetic(b0: byte, b1: byte, b2: byte)
    ensures Octets(b0 / 4, b0 % 4 * 16 + b1 / 16, b1 % 16 * 4 + b2 / 64, b2 % 64) == [b0, b1, b2]
  {
    assert (b0 % 4 * 16 + b1 / 16) / 16 == b0 % 4;
    assert (b0 % 4 * 16 + b1 / 16) % 16 == b1 / 16;
    assert (b1 % 16 * 4 + b2 / 64) / 4 == b1 % 16;
    assert (b1 % 16 * 4 + b2 / 64) % 4 == b2 / 64;
  }

  /** The four groups of an encoded quad, read back. */
  lemma QuadValues(b0: byte, b1: byte, b2: byte)
    ensures Value(Quad(b0, b1, b2)[0]) == Some(b0 / 4)
    ensures Value(Quad(b0, b1, b2)[1]) == Some(b0 % 4 * 16 + b1 / 16)
    ensures Value(Quad(b0, b1, b2)[2]) == Some(b1 % 16 * 4 + b2 / 64)
    ensures Value(Quad(b0, b1, b2)[3]) == Some(b2 % 64)
    ensures Value(PAD) == None
  {
  }

  lemma OctetsOfQuad(b0: byte, b1: byte, b2: byte)
    ensures DecodeQuad(Quad(b0, b1, b2), false) == DecodeQuad(Quad(b0, b1, b2), true) == Some([b0, b1, b2])
  {
    hide Quad, Value, Octets;
    QuadValues(b0, b1, b2);
    OctetArithmetic(b0, b1, b2);
  }

  lemma OctetsOfTail(b: bytes)
    requires 1 <= |b| < 3
    ensures DecodeQuad(Tail(b), true) == Some(b)
  {
    hide Quad, Value, Octets;
    var b1 := if |b| == 1 then 0 else b[1];
    QuadValues(b[0], b1, 0);
    OctetArithmetic(b[0], b1, 0);
    assert b == [b[0], b1, 0][..|b|];
  }

  /** Decoding undoes encoding. */
  lemma {:induction false} DecodeEncode(b: bytes)
    ensures Decode(Encode(b)) == Some(b)
    ensures CanonicalDecode(Encode(b)) == Some(b)
  {
    hide DecodeQuad, Quad, Tail;
    if |b| == 0 {
    } else if |b| < 3 {
      OctetsOfTail(b);
      var s := Encode(b);
      assert s[..4] == s && s[4..] == [];
      assert b + [] == b;
    } else {
      OctetsOfQuad(b[0], b[1], b[2]);
      DecodeEncode(b[3..]);
      var s := Encode(b);
      assert s[..4] == Quad(b[0], b[1], b[2]) && s[4..] == Encode(b[3..]);
      assert [b[0], b[1], b[2]] + b[3..] == b;
    }
  }

  /** The accepted texts are exactly the encodings, and no text stands for two octet strings. */
  lemma AcceptedIsImage(s: bytes)
    ensures CanonicalDecode(s).Some? <==> exists b: bytes :: Encode(b) == s
    ensures forall b: bytes :: Encode(b) == s ==> CanonicalDecode(s) == Some(b)
  {
    hide Decode;
    forall b: bytes | Encode(b) == s
      ensures CanonicalDecode(s) == Some(b)
    {
      DecodeEncode(b);
    }
    if CanonicalDecode(s).Some? {
      assert Encode(CanonicalDecode(s).value) == s;
    }
  }

  /** Section 3.5: the same set by its spelling; the bits that padding leaves over are zero. */
  predicate CanonicalSpelling(s: bytes)
  {
    if s == [] then true
    else if |s| < 4 then false
    else if |s| == 4 && s[3] == PAD then
      var v0, v1, v2 := Value(s[0]), Value(s[1]), Value(s[2]);
      v0.Some? && v1.Some? &&
      (if s[2] == PAD then v1.value % 16 == 0 else v2.Some? && v2.value % 4 == 0)
    else
      (forall i :: 0 <= i < 4 ==> Value(s[i]).Some?) && CanonicalSpelling(s[4..])
  }

  lemma GroupArithmetic(v0: nat, v1: nat, v2: nat, v3: nat)
    requires v0 < 64 && v1 < 64 && v2 < 64 && v3 < 64
    ensures var b := Octets(v0, v1, v2, v3);
            && b[0] / 4 == v0 && b[0] % 4 * 16 + b[1] / 16 == v1
            && b[1] % 16 * 4 + b[2] / 64 == v2 && b[2] % 64 == v3
  {
  }

  /** Four groups, packed into octets, encode to their own symbols. */
  lemma QuadOfOctets(v0: nat, v1: nat, v2: nat, v3: nat)
    requires v0 < 64 && v1 < 64 && v2 < 64 && v3 < 64
    ensures var b := Octets(v0, v1, v2, v3);
            Quad(b[0], b[1], b[2]) == [Symbol(v0), Symbol(v1), Symbol(v2), Symbol(v3)]
  {
    hide Octets, Symbol;
    GroupArithmetic(v0, v1, v2, v3);
  }

  lemma SpellingOfFull(s: bytes)
    requires |s| == 4 && forall i :: 0 <= i < 4 ==> Value(s[i]).Some?
    ensures exists b0: byte, b1: byte, b2: byte :: Quad(b0, b1, b2) == s
  {
    hide Value, Quad, Symbol, Octets;
    var v0, v1, v2, v3 := Value(s[0]).value, Value(s[1]).value, Value(s[2]).value, Value(s[3]).value;
    var b := Octets(v0, v1, v2, v3);
    QuadOfOctets(v0, v1, v2, v3);
    assert s == [s[0], s[1], s[2], s[3]];
  }

  lemma SpellingOfPadded(s: bytes)
    requires |s| == 4 && s[3] == PAD && CanonicalSpelling(s)
    ensures exists b: bytes :: Encode(b) == s
  {
    hide Value, Quad, Symbol;
    var v0, v1 := Value(s[0]).value, Value(s[1]).value;
    var v2 := if s[2] == PAD then 0 else Value(s[2]).value;
    var b := Octets(v0, v1, v2, 0);
    QuadOfOctets(v0, v1, v2, 0);
    assert s == [s[0], s[1], s[2], s[3]];
    if s[2] == PAD {
      assert b[1] == 0 && b[2] == 0;
      assert Encode([b[0]]) == Tail([b[0]]) == s;
    } else {
      assert b[2] == 0;
      assert Encode([b[0], b[1]]) == Tail([b[0], b[1]]) == s;
    }
  }

  lemma {:induction false} SpellingIsEncoding(s: bytes)
    requires CanonicalSpelling(s)
    ensures exists b: bytes :: Encode(b) == s
  {
    hide Quad, Value, Symbol;
    if s == [] {
      assert Encode([]) == s;
    } else if |s| == 4 && s[3] == PAD {
      SpellingOfPadded(s);
    } else {
      SpellingOfFull(s[..4]);
      var b0: byte, b1: byte, b2: byte :| Quad(b0, b1, b2) == s[..4];
      SpellingIsEncoding(s[4..]);
      var rest: bytes :| Encode(rest) == s[4..];
      var b := [b0, b1, b2] + rest;
      assert b[3..] == rest;
      assert Encode(b) == s[..4] + s[4..] == s;
    }
  }

  lemma {:induction false} EncodingIsSpelling(b: bytes)
    ensures CanonicalSpelling(Encode(b))
  {
    var s := Encode(b);
    if |b| < 3 {
      if |b| != 0 {
        TailSpelling(b);
      }
    } else {
      EncodingIsSpelling(b[3..]);
      QuadSpelling(b[0], b[1], b[2]);
      hide Quad, Symbol, Value;
      assert s[..4] == Quad(b[0], b[1], b[2]) && s[4..] == Encode(b[3..]);
      assert forall i :: 0 <= i < 4 ==> s[i] == s[..4][i];
    }
  }

  lemma TailSpelling(b: bytes)
    requires 1 <= |b| < 3
    ensures CanonicalSpelling(Tail(b))
  {
    hide Quad, Value;
    QuadValues(b[0], if |b| == 1 then 0 else b[1], 0);
  }

  lemma QuadSpelling(b0: byte, b1: byte, b2: byte)
    ensures forall i :: 0 <= i < 4 ==> Value(Quad(b0, b1, b2)[i]).Some? && Quad(b0, b1, b2)[i] != PAD
    ensures Value(PAD) == None
  {
    hide Quad, Value;
    QuadValues(b0, b1, b2);
  }

  /** A text is accepted exactly when it is canonically spelled. */
  lemma AcceptedIsCanonical(s: bytes)
    ensures CanonicalDecode(s).Some? <==> CanonicalSpelling(s)
  {
    hide Decode, CanonicalSpelling, Encode, CanonicalDecode;
    AcceptedIsImage(s);
    if CanonicalSpelling(s) {
      SpellingIsEncoding(s);
    }
    if exists b: bytes :: Encode(b) == s {
      var b: bytes :| Encode(b) == s;
      EncodingIsSpelling(b);
    }
  }

  /** The 24-bit input group of the encoder. */
  function Group(b0: nat, b1: nat, b2: nat): nat { b0 * 0x10000 + b1 * 0x100 + b2 }

  /** The shifts and masks of the encoder select the four six-bit groups. */
  lemma ShiftsSelectGroups(b0: byte, b1: byte, b2: byte)
    ensures Group(b0, b1, b2) / 0x40000 % 64 == b0 / 4
    ensures Group(b0, b1, b2) / 0x1000 % 64 == b0 % 4 * 16 + b1 / 16
    ensures Group(b0, b1, b2) / 0x40 % 64 == b1 % 16 * 4 + b2 / 64
    ensures Group(b0, b1, b2) % 64 == b2 % 64
  {
    var high: nat := b0 * 16 + b1 / 16;
    var middle: nat := high * 64 + (b1 % 16 * 4 + b2 / 64);
    SplitByte(b1, 16);
    SplitByte(b2, 64);
    assert Group(b0, b1, b2) == middle * 0x40 + b2 % 64;
    assert Group(b0, b1, b2) / 0x40 == middle;
    assert Group(b0, b1, b2) / 0x1000 == middle / 64 == high;
    assert Group(b0, b1, b2) / 0x40000 == high / 64 == b0 / 4;
    TopGroup(b0, b1 / 16);
  }

  lemma SplitByte(b: byte, n: nat)
    requires n == 16 || n == 64
    ensures b == b / n * n + b % n
  {
  }

  lemma TopGroup(b0: byte, h: nat)
    requires h < 16
    ensures (b0 * 16 + h) % 64 == b0 % 4 * 16 + h
  {
  }

  /** The four characters of a group. */
  function Symbols(value: nat): (q: bytes)
    ensures |q| == 4
  {
    [Symbol(value / 0x40000 % 64), Symbol(value / 0x1000 % 64), Symbol(value / 0x40 % 64), Symbol(value % 64)]
  }

  lemma QuadIs(b0: byte, b1: byte, b2: byte)
    ensures Quad(b0, b1, b2) == Symbols(Group(b0, b1, b2))
  {
    ShiftsSelectGroups(b0, b1, b2);
    hide Symbol, Group;
  }

  lemma NextGroup(rest: bytes)
    requires |rest| >= 3
    ensures Encode(rest) == Symbols(Group(rest[0], rest[1], rest[2])) + Encode(rest[3..])
  {
    QuadIs(rest[0], rest[1], rest[2]);
    hide Symbols, Group, Quad;
  }

  lemma LastGroup(rest: bytes)
    requires |rest| < 3
    ensures |rest| == 0 ==> Encode(rest) == []
    ensures |rest| == 1 ==> Encode(rest) == Symbols(Group(rest[0], 0, 0))[..2] + [PAD, PAD]
    ensures |rest| == 2 ==> Encode(rest) == Symbols(Group(rest[0], rest[1], 0))[..3] + [PAD]
  {
    if rest != [] {
      QuadIs(rest[0], if |rest| == 2 then rest[1] else 0, 0);
    }
    hide Symbols, Group, Quad;
  }

  /** The encoder's loop over groups of three octets. */
  method Base64Encode(input: bytes) returns (output: bytes)
    ensures output == Encode(input)
  {
    hide Symbol, Group, Encode;
    output := [];
    var index := 0;
    assert input[0..] == input;
    while index + 3 <= |input|
      invariant 0 <= index <= |input|
      invariant output + Encode(input[index..]) == Encode(input)
    {
      ghost var rest := input[index..];
      assert rest[3..] == input[index + 3..];
      NextGroup(rest);
      var value := Group(input[index], input[index + 1], input[index + 2]);
      output := output + [Symbol(value / 0x40000 % 64), Symbol(value / 0x1000 % 64),
                          Symbol(value / 0x40 % 64), Symbol(value % 64)];
      index := index + 3;
    }
    var remaining := |input| - index;
    ghost var rest := input[index..];
    LastGroup(rest);
    if remaining == 1 {
      var value := Group(input[index], 0, 0);
      output := output + [Symbol(value / 0x40000 % 64), Symbol(value / 0x1000 % 64), PAD, PAD];
    } else if remaining == 2 {
      var value := Group(input[index], input[index + 1], 0);
      output := output + [Symbol(value / 0x40000 % 64), Symbol(value / 0x1000 % 64),
                          Symbol(value / 0x40 % 64), PAD];
    }
  }
}
