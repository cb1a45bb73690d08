/** The streaming hash: a 64-octet buffer in front of the block transform. */
module Sha256Stream {
  import opened Bytes
  import opened Spec = Sha256Spec

  // The word arithmetic of the transform: every circular right shift is two shifts and an OR.

  function ScheduleSum0(w: word): (r: word)
    ensures r == SmallSigma0(w)
  {
    ((w >> 7) | (w << 25)) ^ ((w >> 18) | (w << 14)) ^ (w >> 3)
  }

  function ScheduleSum1(w: word): (r: word)
    ensures r == SmallSigma1(w)
  {
    ((w >> 17) | (w << 15)) ^ ((w >> 19) | (w << 13)) ^ (w >> 10)
  }

  function RoundSum0(a: word): (r: word)
    ensures r == BigSigma0(a)
  {
    ((a >> 2) | (a << 30)) ^ ((a >> 13) | (a << 19)) ^ ((a >> 22) | (a << 10))
  }

  function RoundSum1(e: word): (r: word)
    ensures r == BigSigma1(e)
  {
    ((e >> 6) | (e << 26)) ^ ((e >> 11) | (e << 21)) ^ ((e >> 25) | (e << 7))
  }

  lemma SumOrder(x: word, y: word, z: word, u: word)
    ensures Sum4(x, y, z, u) == Sum4(u, z, y, x)
  {
  }

  /** Addition order does not matter: the code adds the schedule terms from the oldest word on. */
  lemma ScheduleOrder(w16: word, w15: word, w7: word, w2: word)
    ensures Sum4(w16, ScheduleSum0(w15), w7, ScheduleSum1(w2)) == NextWord(w2, w7, w15, w16)
  {
    hide Sum4, ScheduleSum0, ScheduleSum1, SmallSigma0, SmallSigma1;
    SumOrder(w16, SmallSigma0(w15), w7, SmallSigma1(w2));
  }

  function HashOf(s: seq<word>): Hash
    requires |s| == 8
  {
    Hash(s[0], s[1], s[2], s[3], s[4], s[5], s[6], s[7])
  }

  lemma ScheduleStep(block: bytes, i: nat)
    requires |block| == 64 && i < 64
    ensures i < 16 ==>
      W(block, i) == Word(block[4 * i], block[4 * i + 1], block[4 * i + 2], block[4 * i + 3])
    ensures i >= 16 ==>
      W(block, i) == Sum4(W(block, i - 16), ScheduleSum0(W(block, i - 15)), W(block, i - 7),
                          ScheduleSum1(W(block, i - 2)))
  {
    hide Word, NextWord, Sum4, ScheduleSum0, ScheduleSum1;
    if i >= 16 {
      ScheduleOrder(W(block, i - 16), W(block, i - 15), W(block, i - 7), W(block, i - 2));
    }
  }

  /** The schedule loop of the transform. */
  method FillSchedule(block: bytes) returns (words: array<word>)
    requires |block| == 64
    ensures fresh(words) && words[..] == Schedule(block)
  {
    hide Sum4, ScheduleSum0, ScheduleSum1, SmallSigma0, SmallSigma1, Word, W;
    words := new word[64](_ => 0);
    for i := 0 to 16
      invariant forall t :: 0 <= t < i ==> words[t] == W(block, t)
    {
      var offset := i * 4;
      ScheduleStep(block, i);
      words[i] := Word(block[offset], block[offset + 1], block[offset + 2], block[offset + 3]);
    }
    for i := 16 to 64
      invariant forall t :: 0 <= t < i ==> words[t] == W(block, t)
    {
      var s0 := ScheduleSum0(words[i - 15]);
      var s1 := ScheduleSum1(words[i - 2]);
      ScheduleStep(block, i);
      words[i] := Sum4(words[i - 16], s0, words[i - 7], s1);
    }
  }

  /** The complete blocks of a message. */
  function Whole(m: bytes): bytes { m[..|m| - |m| % 64] }

  /** What follows the complete blocks. */
  function Rest(m: bytes): bytes { m[|m| - |m| % 64..] }

  lemma WholeRest(m: bytes, d: bytes)
    requires |Rest(m)| + |d| <= 64
    ensures m == Whole(m) + Rest(m)
    ensures |Rest(m)| + |d| < 64 ==> Whole(m + d) == Whole(m) && Rest(m + d) == Rest(m) + d
    ensures |Rest(m)| + |d| == 64 ==> Whole(m + d) == Whole(m) + (Rest(m) + d) && Rest(m + d) == []
  {
    assert m + d == Whole(m) + (Rest(m) + d);
  }

  lemma WholeLength(m: bytes)
    ensures |Rest(m)| == |m| % 64 && |Whole(m)| % 64 == 0
    ensures |m| % 64 == 0 ==> Whole(m) == m && Rest(m) == []
  {
  }

  /** The 64-bit length counter, in bits; exact for the messages FIPS 180-4 admits. */
  function MessageBits(totalBytes: nat): (bits: nat)
    ensures totalBytes < 0x2000_0000_0000_0000 ==> bits == 8 * totalBytes
  {
    (totalBytes * 8) % 0x1_0000_0000_0000_0000
  }

  lemma ZerosAdd(j: nat, k: nat)
    ensures Zeros(j) + Zeros(k) == Zeros(j + k)
  {
  }

  lemma PadStart(m: bytes, k: nat)
    ensures Whole(m) + (Rest(m) + [0x80] + Zeros(k)) == m + [0x80] + Zeros(k)
    ensures k == 0 ==> Whole(m) + (Rest(m) + [0x80]) == m + [0x80] + Zeros(k)
  {
    hide Whole, Rest, Zeros;
    WholeLength(m);
    WholeRest(m, []);
    assert k == 0 ==> Zeros(k) == [];
  }

  /** The zeros written before and after an extra block are the zeros of section 5.1.1. */
  lemma PadIs(m: bytes, before: bytes, pad: bytes, k: nat, z: nat)
    requires |before| % 64 == 0 && |pad| + z == 56
    requires before + pad == m + [0x80] + Zeros(k) && (k == 0 || (k < 8 && pad == []))
    ensures before + (pad + Zeros(z) + LengthOctets(8 * |m|)) == Pad(m)
  {
    hide LengthOctets, Zeros;
    assert |before + pad| == |m| + 1 + k;
    PadCountIs(|m|, |before|, |pad|, k, z);
    ZerosAdd(k, z);
    var tail := LengthOctets(8 * |m|);
    assert before + (pad + Zeros(z) + tail) == (before + pad) + Zeros(z) + tail;
    assert (m + [0x80] + Zeros(k)) + Zeros(z) == m + [0x80] + (Zeros(k) + Zeros(z));
  }

  lemma PadCountIs(length: nat, before: nat, pad: nat, k: nat, z: nat)
    requires before % 64 == 0 && pad + z == 56 && before + pad == length + 1 + k
    requires k == 0 || (k < 8 && pad == 0)
    ensures PadCount(length) == k + z
  {
    assert length + 1 + (k + z) == before + 56;
  }

  class Sha256 {
    const state: array<word>
    const buffer: array<byte>
    var totalBytes: nat
    var bufferSize: nat
    /** Every octet absorbed so far. */
    ghost var message: bytes

    ghost const Repr: set<object>

    /** The words and the buffer together stand for the message `m`. */
    ghost predicate Holds(m: bytes)
      reads this`bufferSize, state, buffer
    {
      && state.Length == 8 && buffer.Length == 64
      && bufferSize == |m| % 64
      && HashOf(state[..]) == Fold(InitialHash(), Whole(m))
      && buffer[..bufferSize] == Rest(m)
    }

    ghost predicate Valid()
      reads this, state, buffer
    {
      && Repr == {this, state, buffer}
      && totalBytes == |message|
      && Holds(message)
    }

    constructor ()
      ensures Valid() && message == [] && fresh(Repr)
    {
      state := new word[8][0x6a09e667, 0xbb67ae85, 0x3c6ef372, 0xa54ff53a,
                           0x510e527f, 0x9b05688c, 0x1f83d9ab, 0x5be0cd19];
      buffer := new byte[64](_ => 0);
      totalBytes, bufferSize, message := 0, 0, [];
      Repr := {this, state, buffer};
      new;
    }

    /** One message block. */
    method Transform(block: bytes)
      requires state.Length == 8 && |block| == 64
      modifies state
      ensures HashOf(state[..]) == Compress(old(HashOf(state[..])), block)
    {
      hide Plus, Ch, Maj, RoundSum0, RoundSum1, BigSigma0, BigSigma1, Schedule, RoundConstant, Fold;
      ghost var before := HashOf(state[..]);
      var words := FillSchedule(block);
      ghost var schedule := Schedule(block);
      var a, b, c, d := state[0], state[1], state[2], state[3];
      var e, f, g, h := state[4], state[5], state[6], state[7];
      for i := 0 to 64
        invariant Hash(a, b, c, d, e, f, g, h) == Rounds(before, schedule[..i])
        invariant state[..] == old(state[..]) && words[..] == schedule
      {
        assert schedule[..i + 1][..i] == schedule[..i];
        var choice := Ch(e, f, g);
        var temporary1 := Plus(Plus(Plus(Plus(h, RoundSum1(e)), choice), RoundConstant(i)), words[i]);
        var majority := Maj(a, b, c);
        var temporary2 := Plus(RoundSum0(a), majority);
        h, g, f, e := g, f, e, Plus(d, temporary1);
        d, c, b, a := c, b, a, Plus(temporary1, temporary2);
      }
      assert schedule[..64] == schedule;
      AddToState(a, b, c, d, e, f, g, h);
    }

    /** The last step of a block: the working variables are added to the hash value. */
    method AddToState(a: word, b: word, c: word, d: word, e: word, f: word, g: word, h: word)
      requires state.Length == 8
      modifies state
      ensures HashOf(state[..]) == Add(old(HashOf(state[..])), Hash(a, b, c, d, e, f, g, h))
    {
      hide Plus;
      state[0], state[1] := Plus(state[0], a), Plus(state[1], b);
      state[2], state[3] := Plus(state[2], c), Plus(state[3], d);
      state[4], state[5] := Plus(state[4], e), Plus(state[5], f);
      state[6], state[7] := Plus(state[6], g), Plus(state[7], h);
    }

    /** The transform as seen by its callers: one more block of the message is folded in. */
    method AbsorbBlock(ghost prefix: bytes, block: bytes)
      requires state.Length == 8 && |block| == 64 && |prefix| % 64 == 0
      requires HashOf(state[..]) == Fold(InitialHash(), prefix)
      modifies state
      ensures HashOf(state[..]) == Fold(InitialHash(), prefix + block)
    {
      hide Compress;
      FoldSplit(InitialHash(), prefix, block);
      FoldBlock(Fold(InitialHash(), prefix), block);
      Transform(block);
    }

    /** Copies `data` into the buffer, starting at `at`. */
    method CopyToBuffer(data: bytes, at: nat)
      requires buffer.Length == 64 && at + |data| <= 64
      modifies buffer
      ensures buffer[..] == old(buffer[..at]) + data + old(buffer[at + |data|..])
    {
      for i := 0 to |data|
        invariant buffer[..] == old(buffer[..at]) + data[..i] + old(buffer[at + i..])
      {
        buffer[at + i] := data[i];
      }
      assert data[..|data|] == data;
    }

    /** First part of an update: top up a partly filled buffer and fold it once it is full. */
    method FillBuffer(ghost m: bytes, data: bytes) returns (offset: nat)
      requires Holds(m) && bufferSize != 0
      modifies this`bufferSize, state, buffer
      ensures offset <= |data| && Holds(m + data[..offset])
      ensures bufferSize != 0 ==> offset == |data|
    {
      hide Fold, Whole, Rest;
      var count := if 64 - bufferSize < |data| then 64 - bufferSize else |data|;
      WholeRest(m, data[..count]);
      assert |Rest(m)| == bufferSize;
      CopyToBuffer(data[..count], bufferSize);
      assert buffer[..bufferSize + count] == Rest(m) + data[..count];
      bufferSize := bufferSize + count;
      offset := count;
      if bufferSize == 64 {
        assert buffer[..] == Rest(m) + data[..count];
        WholeLength(m);
        AbsorbBlock(Whole(m), buffer[..]);
        bufferSize := 0;
      }
      WholeLength(m + data[..count]);
    }

    /** Second part: fold whole blocks straight from the input. */
    method FoldBlocks(ghost m: bytes, data: bytes, start: nat) returns (offset: nat)
      requires start <= |data| && Holds(m + data[..start]) && bufferSize == 0
      modifies state
      ensures start <= offset <= |data| < offset + 64 && Holds(m + data[..offset])
    {
      hide Fold, Whole, Rest;
      offset := start;
      while offset + 64 <= |data|
        invariant start <= offset <= |data| && Holds(m + data[..offset])
      {
        WholeLength(m + data[..offset]);
        assert m + data[..offset] + data[offset..offset + 64] == m + data[..offset + 64];
        AbsorbBlock(m + data[..offset], data[offset..offset + 64]);
        offset := offset + 64;
        WholeLength(m + data[..offset]);
      }
    }

    /** Last part: keep what does not fill a block. */
    method Stash(ghost m: bytes, rest: bytes)
      requires Holds(m) && bufferSize == 0 && |rest| < 64
      modifies this`bufferSize, buffer
      ensures Holds(m + rest)
    {
      hide Fold, Whole, Rest;
      WholeLength(m);
      WholeLength(m + rest);
      WholeRest(m, rest);
      bufferSize := |rest|;
      CopyToBuffer(rest, 0);
      assert buffer[..bufferSize] == [] + rest;
    }

    /** Absorbs `data`; how a message is cut into calls leaves no trace in the state. */
    method Update(data: bytes)
      requires Valid()
      modifies this, state, buffer
      ensures Valid() && message == old(message) + data
    {
      hide Fold, Whole, Rest, Holds, HashOf;
      assert message + data[..0] == message;
      if data == [] {
        return;
      }
      totalBytes := totalBytes + |data|;
      var offset := 0;
      if bufferSize != 0 {
        offset := FillBuffer(message, data);
      }
      if bufferSize == 0 {
        offset := FoldBlocks(message, data, offset);
        Stash(message + data[..offset], data[offset..]);
      }
      assert data[..offset] + data[offset..] == data;
      assert message + data[..offset] + data[offset..] == message + data;
      assert offset == |data| ==> data[..offset] == data;
      message := message + data;
    }

    /** Sets buffer octets `from` up to `to` to zero. */
    method FillZero(from: nat, to: nat)
      requires buffer.Length == 64 && from <= to <= 64
      modifies buffer
      ensures buffer[..] == old(buffer[..from]) + Zeros(to - from) + old(buffer[to..])
    {
      for i := from to to
        invariant buffer[..] == old(buffer[..from]) + Zeros(i - from) + old(buffer[i..])
      {
        buffer[i] := 0;
      }
    }

    /** Appends the 0x80 octet and, when the length no longer fits, folds one extra block. */
    method PadFirst() returns (ghost before: bytes, ghost pad: bytes, ghost k: nat)
      requires Valid()
      modifies this`bufferSize, state, buffer
      ensures bufferSize == |pad| <= 56 && |before| % 64 == 0
      ensures HashOf(state[..]) == Fold(InitialHash(), before)
      ensures buffer[..bufferSize] == pad
      ensures before + pad == message + [0x80] + Zeros(k) && (k == 0 || (k < 8 && pad == []))
    {
      hide Fold, HashOf, Whole, Rest, Zeros;
      WholeLength(message);
      before := Whole(message);
      pad := Rest(message) + [0x80];
      k := 0;
      PadStart(message, 0);
      buffer[bufferSize] := 0x80;
      bufferSize := bufferSize + 1;
      assert buffer[..bufferSize] == pad;
      if bufferSize > 56 {
        k := 64 - bufferSize;
        PadStart(message, k);
        FillZero(bufferSize, 64);
        assert buffer[..] == pad + Zeros(k);
        AbsorbBlock(before, buffer[..]);
        before := before + (pad + Zeros(k));
        pad := [];
        bufferSize := 0;
      }
    }

    /** Writes the message length into the last eight octets of the buffer. */
    method PutLength(messageBits: nat)
      requires buffer.Length == 64
      modifies buffer
      ensures buffer[..] == old(buffer[..56]) + LengthOctets(messageBits)
    {
      for i := 0 to 8
        invariant buffer[..56] == old(buffer[..56])
        invariant forall j :: 0 <= j < i ==> buffer[56 + j] == LengthOctet(messageBits, j)
      {
        buffer[56 + i] := LengthOctet(messageBits, i);
      }
      assert buffer[56..] == LengthOctets(messageBits);
      assert buffer[..] == buffer[..56] + buffer[56..];
    }

    /** Pads the absorbed message and returns its digest; the object is spent afterwards. */
    method Finalize() returns (result: bytes)
      requires Valid()
      modifies this, state, buffer
      ensures message == old(message) && |result| == 32
      ensures |message| < 0x2000_0000_0000_0000 ==> result == Spec.Sha256(message)
    {
      hide Fold, HashOf, Pad, HashOctets, LengthOctets, Zeros, MessageBits;
      var messageBits := MessageBits(totalBytes);
      ghost var before, pad, k := PadFirst();
      ghost var z := 56 - bufferSize;
      FillZero(bufferSize, 56);
      assert buffer[..56] == pad + Zeros(z);
      PutLength(messageBits);
      PadIs(message, before, pad, k, z);
      AbsorbBlock(before, buffer[..]);
      result := HashOctets(HashOf(state[..]));
    }

    /** The digest of what was absorbed so far; computed on a copy, so absorbing can go on. */
    method Digest() returns (result: bytes)
      requires Valid()
      ensures |result| == 32
      ensures |message| < 0x2000_0000_0000_0000 ==> result == Spec.Sha256(message)
    {
      var copy := new Sha256.CopyOf(this);
      result := copy.Finalize();
    }

    constructor CopyOf(original: Sha256)
      requires original.Valid()
      ensures Valid() && message == original.message && fresh(Repr)
    {
      var words, pending := original.state[..], original.buffer[..];
      var s := new word[8](i requires 0 <= i < 8 => words[i]);
      var b := new byte[64](i requires 0 <= i < 64 => pending[i]);
      state, buffer := s, b;
      totalBytes, bufferSize, message := original.totalBytes, original.bufferSize, original.message;
      Repr := {this, s, b};
      new;
      hide Fold, Whole, Rest, HashOf;
      assert state[..] == words;
      assert buffer[..] == pending;
      assert buffer[..bufferSize] == pending[..bufferSize];
      assert original.buffer[..bufferSize] == pending[..bufferSize];
    }

    method HexDigest() returns (result: bytes)
      requires Valid()
      ensures |message| < 0x2000_0000_0000_0000 ==> result == Sha256Hex(message)
    {
      hide Spec.Sha256, Hex;
      var digest := Digest();
      result := ToHex(digest);
    }
  }

  method ToHex(digest: bytes) returns (result: bytes)
    ensures result == Hex(digest)
  {
    hide HexDigit;
    result := [];
    assert digest[0..] == digest;
    for i := 0 to |digest|
      invariant Hex(digest) == result + Hex(digest[i..])
    {
      assert digest[i..][1..] == digest[i + 1..];
      result := result + [HexDigit(digest[i] / 16), HexDigit(digest[i] % 16)];
    }
    assert digest[|digest|..] == [];
  }

  /** Any way of cutting a message into updates gives the SHA-256 digest of the whole message. */
  method HashInPieces(pieces: seq<bytes>) returns (early: seq<bytes>, result: bytes)
    requires |Concat(pieces)| < 0x2000_0000_0000_0000
    ensures |early| == |pieces|
    ensures forall i :: 0 <= i < |pieces| ==> early[i] == Spec.Sha256(Concat(pieces[..i]))
    ensures result == Spec.Sha256(Concat(pieces))
  {
    hide Spec.Sha256, Concat, Fold;
    var hash := new Sha256();
    early := [];
    ConcatPrefix(pieces, 0);
    for i := 0 to |pieces|
      invariant hash.Valid() && fresh(hash.Repr) && hash.message == Concat(pieces[..i])
      invariant |early| == i
      invariant forall j :: 0 <= j < i ==> early[j] == Spec.Sha256(Concat(pieces[..j]))
    {
      ConcatPrefix(pieces, i);
      ConcatPrefix(pieces, i + 1);
      var digest := hash.Digest();
      early := early + [digest];
      hash.Update(pieces[i]);
    }
    assert pieces[..|pieces|] == pieces;
    result := hash.Digest();
  }
}
