/** SHA-256 as FIPS 180-4 defines it: the reference the streaming class is proved against. */
module Sha256Spec {
  import opened Bytes

  type word = bv32

  /** The eight working variables, which are also the eight words of a hash value. */
  datatype Hash = Hash(a: word, b: word, c: word, d: word, e: word, f: word, g: word, h: word)

  /** Section 5.3.3: the initial hash value. */
  function InitialHash(): Hash
  {
    Hash(0x6a09e667, 0xbb67ae85, 0x3c6ef372, 0xa54ff53a,
         0x510e527f, 0x9b05688c, 0x1f83d9ab, 0x5be0cd19)
  }

  function Constants0(i: nat): word
    requires i < 8
  {
    match i
    case 0 => 0x428a2f98 case 1 => 0x71374491 case 2 => 0xb5c0fbcf case 3 => 0xe9b5dba5
    case 4 => 0x3956c25b case 5 => 0x59f111f1 case 6 => 0x923f82a4 case _ => 0xab1c5ed5
  }

  function Constants8(i: nat): word
    requires i < 8
  {
    match i
    case 0 => 0xd807aa98 case 1 => 0x12835b01 case 2 => 0x243185be case 3 => 0x550c7dc3
    case 4 => 0x72be5d74 case 5 => 0x80deb1fe case 6 => 0x9bdc06a7 case _ => 0xc19bf174
  }

  function Constants16(i: nat): word
    requires i < 8
  {
    match i
    case 0 => 0xe49b69c1 case 1 => 0xefbe4786 case 2 => 0x0fc19dc6 case 3 => 0x240ca1cc
    case 4 => 0x2de92c6f case 5 => 0x4a7484aa case 6 => 0x5cb0a9dc case _ => 0x76f988da
  }

  function Constants24(i: nat): word
    requires i < 8
  {
    match i
    case 0 => 0x983e5152 case 1 => 0xa831c66d case 2 => 0xb00327c8 case 3 => 0xbf597fc7
    case 4 => 0xc6e00bf3 case 5 => 0xd5a79147 case 6 => 0x06ca6351 case _ => 0x14292967
  }

  function Constants32(i: nat): word
    requires i < 8
  {
    match i
    case 0 => 0x27b70a85 case 1 => 0x2e1b2138 case 2 => 0x4d2c6dfc case 3 => 0x53380d13
    case 4 => 0x650a7354 case 5 => 0x766a0abb case 6 => 0x81c2c92e case _ => 0x92722c85
  }

  function Constants40(i: nat): word
    requires i < 8
  {
    match i
    case 0 => 0xa2bfe8a1 case 1 => 0xa81a664b case 2 => 0xc24b8b70 case 3 => 0xc76c51a3
    case 4 => 0xd192e819 case 5 => 0xd6990624 case 6 => 0xf40e3585 case _ => 0x106aa070
  }

  function Constants48(i: nat): word
    requires i < 8
  {
    match i
    case 0 => 0x19a4c116 case 1 => 0x1e376c08 case 2 => 0x2748774c case 3 => 0x34b0bcb5
    case 4 => 0x391c0cb3 case 5 => 0x4ed8aa4a case 6 => 0x5b9cca4f case _ => 0x682e6ff3
  }

  function Constants56(i: nat): word
    requires i < 8
  {
    match i
    case 0 => 0x748f82ee case 1 => 0x78a5636f case 2 => 0x84c87814 case 3 => 0x8cc70208
    case 4 => 0x90befffa case 5 => 0xa4506ceb case 6 => 0xbef9a3f7 case _ => 0xc67178f2
  }

  /** Section 4.2.2: the sixty-four round constants. */
  function RoundConstant(t: nat): word
    requires t < 64
  {
    if t < 32 then
      if t < 16 then if t < 8 then Constants0(t) else Constants8(t - 8)
      else if t < 24 then Constants16(t - 16) else Constants24(t - 24)
    else if t < 48 then if t < 40 then Constants32(t - 32) else Constants40(t - 40)
    else if t < 56 then Constants48(t - 48) else Constants56(t - 56)
  }

  /** Addition modulo 2^32. */
  function Plus(x: word, y: word): word { x + y }

  function Sum4(x: word, y: word, z: word, u: word): word { x + y + z + u }

  // Section 4.1.2: the six logical functions, over the circular right shift of section 3.2.

  function Ch(x: word, y: word, z: word): word { (x & y) ^ (!x & z) }

  function Maj(x: word, y: word, z: word): word { (x & y) ^ (x & z) ^ (y & z) }

  function BigSigma0(x: word): word { x.RotateRight(2) ^ x.RotateRight(13) ^ x.RotateRight(22) }

  function BigSigma1(x: word): word { x.RotateRight(6) ^ x.RotateRight(11) ^ x.RotateRight(25) }

  function SmallSigma0(x: word): word { x.RotateRight(7) ^ x.RotateRight(18) ^ (x >> 3) }

  function SmallSigma1(x: word): word { x.RotateRight(17) ^ x.RotateRight(19) ^ (x >> 10) }

  /** Section 3.1: four octets, most significant first, as one word. */
  function Word(b0: byte, b1: byte, b2: byte, b3: byte): word
  {
    (b0 as bv32 << 24) | (b1 as bv32 << 16) | (b2 as bv32 << 8) | (b3 as bv32)
  }

  function NextWord(w2: word, w7: word, w15: word, w16: word): word
  {
    Sum4(SmallSigma1(w2), w7, SmallSigma0(w15), w16)
  }

  /** Section 6.2.2, step 1: the message schedule. */
  function W(block: bytes, t: nat): word
    requires |block| == 64 && t < 64
  {
    if t < 16 then
      Word(block[4 * t], block[4 * t + 1], block[4 * t + 2], block[4 * t + 3])
    else
      NextWord(W(block, t - 2), W(block, t - 7), W(block, t - 15), W(block, t - 16))
  }

  function T1(h: word, e: word, f: word, g: word, k: word, w: word): word
  {
    Plus(Plus(Plus(Plus(h, BigSigma1(e)), Ch(e, f, g)), k), w)
  }

  function T2(a: word, b: word, c: word): word
  {
    Plus(BigSigma0(a), Maj(a, b, c))
  }

  /** Section 6.2.2, step 3: one round. */
  function Round(v: Hash, k: word, w: word): Hash
  {
    var t1 := T1(v.h, v.e, v.f, v.g, k, w);
    var t2 := T2(v.a, v.b, v.c);
    Hash(Plus(t1, t2), v.a, v.b, v.c, Plus(v.d, t1), v.e, v.f, v.g)
  }

  /** The whole message schedule of a block. */
  function Schedule(block: bytes): (words: seq<word>)
    requires |block| == 64
    ensures |words| == 64
  {
    seq(64, t requires 0 <= t < 64 => W(block, t))
  }

  /** The working variables after one round for each of `words`. */
  function Rounds(v: Hash, words: seq<word>): Hash
    requires |words| <= 64
  {
    if words == [] then v
    else
      var t := |words| - 1;
      Round(Rounds(v, words[..t]), RoundConstant(t), words[t])
  }

  function Add(x: Hash, y: Hash): Hash
  {
    Hash(Plus(x.a, y.a), Plus(x.b, y.b), Plus(x.c, y.c), Plus(x.d, y.d),
         Plus(x.e, y.e), Plus(x.f, y.f), Plus(x.g, y.g), Plus(x.h, y.h))
  }

  /** Section 6.2.2, steps 2 to 4: one message block. */
  function Compress(v: Hash, block: bytes): Hash
    requires |block| == 64
  {
    Add(v, Rounds(v, Schedule(block)))
  }

  /** All complete blocks of a message, in order. */
  function Fold(v: Hash, message: bytes): Hash
    decreases |message|
  {
    if |message| < 64 then v else Fold(Compress(v, message[..64]), message[64..])
  }

  /** Octet `i` of the 64-bit big-endian representation of `n`. */
  function LengthOctet(n: nat, i: nat): byte
    requires i < 8
  {
    (n / PowerOf256(7 - i)) % 256
  }

  function PowerOf256(e: nat): (r: nat)
    requires e < 8
    ensures r > 0
  {
    match e
    case 0 => 1
    case 1 => 0x100
    case 2 => 0x1_0000
    case 3 => 0x100_0000
    case 4 => 0x1_0000_0000
    case 5 => 0x100_0000_0000
    case 6 => 0x1_0000_0000_0000
    case _ => 0x100_0000_0000_0000
  }

  function LengthOctets(n: nat): (r: bytes)
    ensures |r| == 8
  {
    seq(8, i requires 0 <= i < 8 => LengthOctet(n, i))
  }

  /** The number that octets stand for, most significant first. */
  function BigEndian(b: bytes): nat
  {
    if b == [] then 0 else BigEndian(b[..|b| - 1]) * 0x100 + b[|b| - 1]
  }

  lemma {:induction false} LengthPrefix(n: nat, i: nat)
    requires n < 0x1_0000_0000_0000_0000 && 0 < i <= 8
    ensures BigEndian(LengthOctets(n)[..i]) == n / PowerOf256(8 - i)
  {
    var b := LengthOctets(n)[..i];
    assert b[..i - 1] == LengthOctets(n)[..i - 1] && b[i - 1] == LengthOctet(n, i - 1);
    hide PowerOf256, LengthOctets;
    if i > 1 {
      LengthPrefix(n, i - 1);
    }
    NextOctet(n, 8 - i);
  }

  lemma NextOctet(n: nat, e: nat)
    requires e < 8 && n < 0x1_0000_0000_0000_0000
    ensures var above := if e < 7 then n / PowerOf256(e + 1) else 0;
            above * 0x100 + n / PowerOf256(e) % 0x100 == n / PowerOf256(e)
  {
    match e
    case 0 =>
    case 1 =>
    case 2 =>
    case 3 =>
    case 4 =>
    case 5 =>
    case 6 =>
    case _ =>
  }

  /** Section 5.1.1: the length of the message in bits, as 64 bits. */
  lemma LengthIsBigEndian(n: nat)
    requires n < 0x1_0000_0000_0000_0000
    ensures BigEndian(LengthOctets(n)) == n
  {
    LengthPrefix(n, 8);
    assert LengthOctets(n)[..8] == LengthOctets(n);
  }

  function Zeros(n: nat): (r: bytes)
    ensures |r| == n
  {
    seq(n, _ => 0)
  }

  /** Section 5.1.1: the number of zero octets between the 0x80 octet and the length. */
  function PadCount(length: nat): (k: nat)
    ensures k < 64 && (length + 1 + k) % 64 == 56
  {
    (55 - length) % 64
  }

  /** Section 5.1.1: the padded message. */
  function Pad(message: bytes): (r: bytes)
    ensures |r| % 64 == 0
  {
    message + [0x80] + Zeros(PadCount(|message|)) + LengthOctets(8 * |message|)
  }

  function LowOctet(w: word): byte { ((w & 0xff) as bv8) as int }

  function WordOctets(w: word): (r: bytes)
    ensures |r| == 4
  {
    [LowOctet(w >> 24), LowOctet(w >> 16), LowOctet(w >> 8), LowOctet(w)]
  }

  function HashOctets(v: Hash): (r: bytes)
    ensures |r| == 32
  {
    WordOctets(v.a) + WordOctets(v.b) + WordOctets(v.c) + WordOctets(v.d)
    + WordOctets(v.e) + WordOctets(v.f) + WordOctets(v.g) + WordOctets(v.h)
  }

  /** The SHA-256 message digest. */
  function Sha256(message: bytes): (r: bytes)
    ensures |r| == 32
  {
    HashOctets(Fold(InitialHash(), Pad(message)))
  }

  /** Lower-case hexadecimal. */
  function Hex(b: bytes): (r: bytes)
    ensures |r| == 2 * |b|
  {
    if b == [] then [] else [HexDigit(b[0] / 16), HexDigit(b[0] % 16)] + Hex(b[1..])
  }

  function Sha256Hex(message: bytes): (r: bytes)
    ensures |r| == 64
  {
    Hex(Sha256(message))
  }

  /** Whole blocks can be folded piecewise: the property every streaming hash depends on. */
  lemma {:induction false} FoldSplit(v: Hash, left: bytes, right: bytes)
    requires |left| % 64 == 0
    ensures Fold(v, left + right) == Fold(Fold(v, left), right)
    decreases |left|
  {
    if left == [] {
      assert left + right == right;
    } else {
      assert (left + right)[..64] == left[..64];
      assert (left + right)[64..] == left[64..] + right;
      FoldSplit(Compress(v, left[..64]), left[64..], right);
    }
  }

  lemma FoldBlock(v: Hash, block: bytes)
    requires |block| == 64
    ensures Fold(v, block) == Compress(v, block)
  {
    assert block[..64] == block;
    assert |block[64..]| == 0;
  }
}
