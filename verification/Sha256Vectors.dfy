/** The digests of two messages, one block and two blocks long, computed round by round. */
module Sha256Vectors {
  import opened Bytes
  import opened JsonText
  import opened Sha256Spec

  /** Sixteen consecutive words of a message schedule. */
  datatype Words = Words(w0: word, w1: word, w2: word, w3: word, w4: word, w5: word, w6: word, w7: word,
                         w8: word, w9: word, w10: word, w11: word, w12: word, w13: word, w14: word, w15: word)

  predicate Holds(words: seq<word>, t: nat, x: Words)
  {
    && t + 16 <= |words|
    && words[t] == x.w0 && words[t + 1] == x.w1 && words[t + 2] == x.w2 && words[t + 3] == x.w3
    && words[t + 4] == x.w4 && words[t + 5] == x.w5 && words[t + 6] == x.w6 && words[t + 7] == x.w7
    && words[t + 8] == x.w8 && words[t + 9] == x.w9 && words[t + 10] == x.w10 && words[t + 11] == x.w11
    && words[t + 12] == x.w12 && words[t + 13] == x.w13 && words[t + 14] == x.w14 && words[t + 15] == x.w15
  }

  predicate Derived(words: seq<word>, t: nat)
  {
    16 <= t < |words| && words[t] == NextWord(words[t - 2], words[t - 7], words[t - 15], words[t - 16])
  }

  predicate Scheduled(words: seq<word>)
  {
    |words| == 64 && forall t :: 16 <= t < 64 ==> Derived(words, t)
  }

  lemma ScheduleIs(block: bytes)
    requires |block| == 64
    ensures Scheduled(Schedule(block))
  {
    hide NextWord;
  }

  /** The next sixteen words of a schedule. */
  lemma SixteenAhead(words: seq<word>, t: nat, w0: word, w1: word, w2: word, w3: word, w4: word, w5: word, w6: word,
                     w7: word, w8: word, w9: word, w10: word, w11: word, w12: word, w13: word, w14: word, w15: word,
                     w16: word, w17: word, w18: word, w19: word, w20: word, w21: word, w22: word, w23: word,
                     w24: word, w25: word, w26: word, w27: word, w28: word, w29: word, w30: word, w31: word)
    requires Scheduled(words) && t <= 32
    requires Holds(words, t, Words(w0, w1, w2, w3, w4, w5, w6, w7, w8, w9, w10, w11, w12, w13, w14, w15))
    requires w16 == NextWord(w14, w9, w1, w0) && w17 == NextWord(w15, w10, w2, w1)
    requires w18 == NextWord(w16, w11, w3, w2) && w19 == NextWord(w17, w12, w4, w3)
    requires w20 == NextWord(w18, w13, w5, w4) && w21 == NextWord(w19, w14, w6, w5)
    requires w22 == NextWord(w20, w15, w7, w6) && w23 == NextWord(w21, w16, w8, w7)
    requires w24 == NextWord(w22, w17, w9, w8) && w25 == NextWord(w23, w18, w10, w9)
    requires w26 == NextWord(w24, w19, w11, w10) && w27 == NextWord(w25, w20, w12, w11)
    requires w28 == NextWord(w26, w21, w13, w12) && w29 == NextWord(w27, w22, w14, w13)
    requires w30 == NextWord(w28, w23, w15, w14) && w31 == NextWord(w29, w24, w16, w15)
    ensures Holds(words, t + 16, Words(w16, w17, w18, w19, w20, w21, w22, w23, w24, w25, w26, w27, w28, w29, w30, w31))
  {
    hide NextWord;
    var n := t + 16;
    assert Derived(words, n);
    assert Derived(words, n + 1);
    assert Derived(words, n + 2);
    assert Derived(words, n + 3);
    assert Derived(words, n + 4);
    assert Derived(words, n + 5);
    assert Derived(words, n + 6);
    assert Derived(words, n + 7);
    assert Derived(words, n + 8);
    assert Derived(words, n + 9);
    assert Derived(words, n + 10);
    assert Derived(words, n + 11);
    assert Derived(words, n + 12);
    assert Derived(words, n + 13);
    assert Derived(words, n + 14);
    assert Derived(words, n + 15);
  }

  lemma OneMore(v: Hash, words: seq<word>, t: nat)
    requires t < |words| <= 64
    ensures Rounds(v, words[..t + 1]) == Round(Rounds(v, words[..t]), RoundConstant(t), words[t])
  {
    hide Round, RoundConstant;
    assert words[..t + 1][..t] == words[..t];
  }

  /** The working variables after the first `t` rounds. */
  predicate Reached(v: Hash, words: seq<word>, t: nat, s: Hash)
  {
    t <= |words| <= 64 && Rounds(v, words[..t]) == s
  }

  lemma NoRounds(v: Hash, words: seq<word>)
    requires |words| == 64
    ensures Reached(v, words, 0, v)
  {
  }

  lemma AllRounds(v: Hash, block: bytes)
    requires |block| == 64
    ensures forall s :: Reached(v, Schedule(block), 64, s) ==> Compress(v, block) == Add(v, s)
  {
    hide Rounds, Add;
    assert Schedule(block)[..64] == Schedule(block);
  }

  /** Eight more rounds, with the new values of the first and the fifth working variable. */
  lemma EightMore(v: Hash, words: seq<word>, t: nat, k0: word, k1: word, k2: word, k3: word, k4: word, k5: word,
                  k6: word, k7: word, w0: word, w1: word, w2: word, w3: word, w4: word, w5: word, w6: word, w7: word,
                  a: word, b: word, c: word, d: word, e: word, f: word, g: word, h: word, a1: word, e1: word,
                  a2: word, e2: word, a3: word, e3: word, a4: word, e4: word, a5: word, e5: word, a6: word, e6: word,
                  a7: word, e7: word, a8: word, e8: word)
    requires |words| == 64 && t <= 56 && Reached(v, words, t, Hash(a, b, c, d, e, f, g, h))
    requires words[t] == w0 && words[t + 1] == w1 && words[t + 2] == w2 && words[t + 3] == w3
    requires words[t + 4] == w4 && words[t + 5] == w5 && words[t + 6] == w6 && words[t + 7] == w7
    requires RoundConstant(t) == k0 && RoundConstant(t + 1) == k1 && RoundConstant(t + 2) == k2
    requires RoundConstant(t + 3) == k3 && RoundConstant(t + 4) == k4 && RoundConstant(t + 5) == k5
    requires RoundConstant(t + 6) == k6 && RoundConstant(t + 7) == k7
    requires Round(Hash(a, b, c, d, e, f, g, h), k0, w0) ==
             Hash(a1, a, b, c, e1, e, f, g)
    requires Round(Hash(a1, a, b, c, e1, e, f, g), k1, w1) ==
             Hash(a2, a1, a, b, e2, e1, e, f)
    requires Round(Hash(a2, a1, a, b, e2, e1, e, f), k2, w2) ==
             Hash(a3, a2, a1, a, e3, e2, e1, e)
    requires Round(Hash(a3, a2, a1, a, e3, e2, e1, e), k3, w3) ==
             Hash(a4, a3, a2, a1, e4, e3, e2, e1)
    requires Round(Hash(a4, a3, a2, a1, e4, e3, e2, e1), k4, w4) ==
             Hash(a5, a4, a3, a2, e5, e4, e3, e2)
    requires Round(Hash(a5, a4, a3, a2, e5, e4, e3, e2), k5, w5) ==
             Hash(a6, a5, a4, a3, e6, e5, e4, e3)
    requires Round(Hash(a6, a5, a4, a3, e6, e5, e4, e3), k6, w6) ==
             Hash(a7, a6, a5, a4, e7, e6, e5, e4)
    requires Round(Hash(a7, a6, a5, a4, e7, e6, e5, e4), k7, w7) ==
             Hash(a8, a7, a6, a5, e8, e7, e6, e5)
    ensures Reached(v, words, t + 8, Hash(a8, a7, a6, a5, e8, e7, e6, e5))
  {
    hide Round, RoundConstant, Rounds;
    OneMore(v, words, t);
    OneMore(v, words, t + 1);
    OneMore(v, words, t + 2);
    OneMore(v, words, t + 3);
    OneMore(v, words, t + 4);
    OneMore(v, words, t + 5);
    OneMore(v, words, t + 6);
    OneMore(v, words, t + 7);
  }

  // The message "abc", of one block.

  const ABC_0 := Words(0x61626380, 0x00000000, 0x00000000, 0x00000000, 0x00000000, 0x00000000, 0x00000000,
                       0x00000000, 0x00000000, 0x00000000, 0x00000000, 0x00000000, 0x00000000, 0x00000000,
                       0x00000000, 0x00000018)
  const ABC_16 := Words(0x61626380, 0x000f0000, 0x7da86405, 0x600003c6, 0x3e9d7b78, 0x0183fc00, 0x12dcbfdb,
                        0xe2e2c38e, 0xc8215c1a, 0xb73679a2, 0xe5bc3909, 0x32663c5b, 0x9d209d67, 0xec8726cb,
                        0x702138a4, 0xd3b7973b)
  const ABC_32 := Words(0x93f5997f, 0x3b68ba73, 0xaff4ffc1, 0xf10a5c62, 0x0a8b3996, 0x72af830a, 0x9409e33e,
                        0x24641522, 0x9f47bf94, 0xf0a64f5a, 0x3e246a79, 0x27333ba3, 0x0c4763f2, 0x840abf27,
                        0x7a290d5d, 0x065c43da)
  const ABC_48 := Words(0xfb3e89cb, 0xcc7617db, 0xb9e66c34, 0xa9993667, 0x84badedd, 0xc21462bc, 0x1487472c,
                        0xb20f7a99, 0xef57b9cd, 0xebe6b238, 0x9fe3095e, 0x78bc8d4b, 0xa43fcf15, 0x668b2ff8,
                        0xeeaba2cc, 0x12b1edeb)

  const ABC_STATE_0 := Hash(0x6a09e667, 0xbb67ae85, 0x3c6ef372, 0xa54ff53a, 0x510e527f, 0x9b05688c, 0x1f83d9ab,
                            0x5be0cd19)
  const ABC_STATE_8 := Hash(0x85a07b5f, 0xe5030380, 0x2b4209f5, 0x04409a6a, 0x0c657a79, 0x9b27a401, 0x714260ad,
                            0x43ada245)
  const ABC_STATE_16 := Hash(0xb0fa238e, 0xc0645fde, 0xd932eb16, 0x87912990, 0x07590dcd, 0x0b92f20c, 0x745a48de,
                             0x1e578218)
  const ABC_STATE_32 := Hash(0x73b33bf5, 0xea992a22, 0xa0060b30, 0x363482c9, 0xba591112, 0x0109ab3a, 0xade79437,
                             0x6112a3b7)
  const ABC_STATE_48 := Hash(0x4172328d, 0xa14c14b0, 0x72ab4b91, 0x26628815, 0xfecf0bc6, 0xd57b94a9, 0xb7755da1,
                             0xa80f11f0)
  const ABC_STATE_64 := Hash(0x506e3058, 0xd39a2165, 0x04d24d6c, 0xb85e2ce9, 0x5ef50f24, 0xfb121210, 0x948d25b6,
                             0x961f4894)
  const ABC_HASH := Hash(0xba7816bf, 0x8f01cfea, 0x414140de, 0x5dae2223, 0xb00361a3, 0x96177a9c, 0xb410ff61,
                         0xf20015ad)

  lemma AbcWords(words: seq<word>)
    requires Scheduled(words) && Holds(words, 0, ABC_0)
    ensures Holds(words, 16, ABC_16) && Holds(words, 32, ABC_32) && Holds(words, 48, ABC_48)
  {
    hide Scheduled, Holds;
    SixteenAhead(words, 0, 0x61626380, 0x00000000, 0x00000000, 0x00000000, 0x00000000, 0x00000000, 0x00000000,
                 0x00000000, 0x00000000, 0x00000000, 0x00000000, 0x00000000, 0x00000000, 0x00000000, 0x00000000,
                 0x00000018, 0x61626380, 0x000f0000, 0x7da86405, 0x600003c6, 0x3e9d7b78, 0x0183fc00, 0x12dcbfdb,
                 0xe2e2c38e, 0xc8215c1a, 0xb73679a2, 0xe5bc3909, 0x32663c5b, 0x9d209d67, 0xec8726cb, 0x702138a4,
                 0xd3b7973b);
    SixteenAhead(words, 16, 0x61626380, 0x000f0000, 0x7da86405, 0x600003c6, 0x3e9d7b78, 0x0183fc00, 0x12dcbfdb,
                 0xe2e2c38e, 0xc8215c1a, 0xb73679a2, 0xe5bc3909, 0x32663c5b, 0x9d209d67, 0xec8726cb, 0x702138a4,
                 0xd3b7973b, 0x93f5997f, 0x3b68ba73, 0xaff4ffc1, 0xf10a5c62, 0x0a8b3996, 0x72af830a, 0x9409e33e,
                 0x24641522, 0x9f47bf94, 0xf0a64f5a, 0x3e246a79, 0x27333ba3, 0x0c4763f2, 0x840abf27, 0x7a290d5d,
                 0x065c43da);
    SixteenAhead(words, 32, 0x93f5997f, 0x3b68ba73, 0xaff4ffc1, 0xf10a5c62, 0x0a8b3996, 0x72af830a, 0x9409e33e,
                 0x24641522, 0x9f47bf94, 0xf0a64f5a, 0x3e246a79, 0x27333ba3, 0x0c4763f2, 0x840abf27, 0x7a290d5d,
                 0x065c43da, 0xfb3e89cb, 0xcc7617db, 0xb9e66c34, 0xa9993667, 0x84badedd, 0xc21462bc, 0x1487472c,
                 0xb20f7a99, 0xef57b9cd, 0xebe6b238, 0x9fe3095e, 0x78bc8d4b, 0xa43fcf15, 0x668b2ff8, 0xeeaba2cc,
                 0x12b1edeb);
  }

  lemma AbcRounds0(v: Hash, words: seq<word>)
    requires |words| == 64 && Holds(words, 0, ABC_0) && Reached(v, words, 0, ABC_STATE_0)
    ensures Reached(v, words, 8, ABC_STATE_8)
  {
    hide Reached;
    EightMore(v, words, 0, 0x428a2f98, 0x71374491, 0xb5c0fbcf, 0xe9b5dba5, 0x3956c25b, 0x59f111f1, 0x923f82a4,
              0xab1c5ed5, 0x61626380, 0x00000000, 0x00000000, 0x00000000, 0x00000000, 0x00000000, 0x00000000,
              0x00000000, 0x6a09e667, 0xbb67ae85, 0x3c6ef372, 0xa54ff53a, 0x510e527f, 0x9b05688c, 0x1f83d9ab,
              0x5be0cd19, 0x5d6aebcd, 0xfa2a4622, 0x5a6ad9ad, 0x78ce7989, 0xc8c347a7, 0xf92939eb, 0xd550f666,
              0x24e00850, 0x04409a6a, 0x43ada245, 0x2b4209f5, 0x714260ad, 0xe5030380, 0x9b27a401, 0x85a07b5f,
              0x0c657a79);
  }

  lemma AbcRounds8(v: Hash, words: seq<word>)
    requires |words| == 64 && Holds(words, 0, ABC_0) && Reached(v, words, 8, ABC_STATE_8)
    ensures Reached(v, words, 16, ABC_STATE_16)
  {
    hide Reached;
    EightMore(v, words, 8, 0xd807aa98, 0x12835b01, 0x243185be, 0x550c7dc3, 0x72be5d74, 0x80deb1fe, 0x9bdc06a7,
              0xc19bf174, 0x00000000, 0x00000000, 0x00000000, 0x00000000, 0x00000000, 0x00000000, 0x00000000,
              0x00000018, 0x85a07b5f, 0xe5030380, 0x2b4209f5, 0x04409a6a, 0x0c657a79, 0x9b27a401, 0x714260ad,
              0x43ada245, 0x8e04ecb9, 0x32ca2d8c, 0x8c87346b, 0x1cc92596, 0x4798a3f4, 0x436b23e8, 0xf71fc5a9,
              0x816fd6e9, 0x87912990, 0x1e578218, 0xd932eb16, 0x745a48de, 0xc0645fde, 0x0b92f20c, 0xb0fa238e,
              0x07590dcd);
  }

  lemma AbcRounds16(v: Hash, words: seq<word>)
    requires |words| == 64 && Holds(words, 16, ABC_16) && Reached(v, words, 16, ABC_STATE_16)
    ensures Reached(v, words, 32, ABC_STATE_32)
  {
    hide Reached;
    EightMore(v, words, 16, 0xe49b69c1, 0xefbe4786, 0x0fc19dc6, 0x240ca1cc, 0x2de92c6f, 0x4a7484aa, 0x5cb0a9dc,
              0x76f988da, 0x61626380, 0x000f0000, 0x7da86405, 0x600003c6, 0x3e9d7b78, 0x0183fc00, 0x12dcbfdb,
              0xe2e2c38e, 0xb0fa238e, 0xc0645fde, 0xd932eb16, 0x87912990, 0x07590dcd, 0x0b92f20c, 0x745a48de,
              0x1e578218, 0x21da9a9b, 0x8034229c, 0xc2fbd9d1, 0x846ee454, 0xfe777bbf, 0xcc899961, 0xe1f20c33,
              0xb0638179, 0x9dc68b63, 0x8ada8930, 0xc2606d6d, 0xe1257970, 0xa7a3623f, 0x49f5114a, 0xc5d53d8d,
              0xaa47c347);
    EightMore(v, words, 24, 0x983e5152, 0xa831c66d, 0xb00327c8, 0xbf597fc7, 0xc6e00bf3, 0xd5a79147, 0x06ca6351,
              0x14292967, 0xc8215c1a, 0xb73679a2, 0xe5bc3909, 0x32663c5b, 0x9d209d67, 0xec8726cb, 0x702138a4,
              0xd3b7973b, 0xc5d53d8d, 0xa7a3623f, 0xc2606d6d, 0x9dc68b63, 0xaa47c347, 0x49f5114a, 0xe1257970,
              0x8ada8930, 0x1c2c2838, 0x2823ef91, 0xcde8037d, 0x14383d8e, 0xb62ec4bc, 0xc74c6516, 0x77d37528,
              0xedffbff8, 0x363482c9, 0x6112a3b7, 0xa0060b30, 0xade79437, 0xea992a22, 0x0109ab3a, 0x73b33bf5,
              0xba591112);
  }

  lemma AbcRounds32(v: Hash, words: seq<word>)
    requires |words| == 64 && Holds(words, 32, ABC_32) && Reached(v, words, 32, ABC_STATE_32)
    ensures Reached(v, words, 48, ABC_STATE_48)
  {
    hide Reached;
    EightMore(v, words, 32, 0x27b70a85, 0x2e1b2138, 0x4d2c6dfc, 0x53380d13, 0x650a7354, 0x766a0abb, 0x81c2c92e,
              0x92722c85, 0x93f5997f, 0x3b68ba73, 0xaff4ffc1, 0xf10a5c62, 0x0a8b3996, 0x72af830a, 0x9409e33e,
              0x24641522, 0x73b33bf5, 0xea992a22, 0xa0060b30, 0x363482c9, 0xba591112, 0x0109ab3a, 0xade79437,
              0x6112a3b7, 0x98e12507, 0x9cd9f5f6, 0xfe604df5, 0x59249dd3, 0xa9a7738c, 0x085f3833, 0x65a0cfe4,
              0xf4b002d6, 0x41a65cb1, 0x0772a26b, 0x34df1604, 0xa507a53d, 0x6dc57a8a, 0xf0781bc8, 0x79ea687a,
              0x1efbc0a0);
    EightMore(v, words, 40, 0xa2bfe8a1, 0xa81a664b, 0xc24b8b70, 0xc76c51a3, 0xd192e819, 0xd6990624, 0xf40e3585,
              0x106aa070, 0x9f47bf94, 0xf0a64f5a, 0x3e246a79, 0x27333ba3, 0x0c4763f2, 0x840abf27, 0x7a290d5d,
              0x065c43da, 0x79ea687a, 0x6dc57a8a, 0x34df1604, 0x41a65cb1, 0x1efbc0a0, 0xf0781bc8, 0xa507a53d,
              0x0772a26b, 0xd6670766, 0x26352d63, 0xdf46652f, 0x838b2711, 0x17aa0dfe, 0xdecd4715, 0x9d4baf93,
              0xfda24c2e, 0x26628815, 0xa80f11f0, 0x72ab4b91, 0xb7755da1, 0xa14c14b0, 0xd57b94a9, 0x4172328d,
              0xfecf0bc6);
  }

  lemma AbcRounds48(v: Hash, words: seq<word>)
    requires |words| == 64 && Holds(words, 48, ABC_48) && Reached(v, words, 48, ABC_STATE_48)
    ensures Reached(v, words, 64, ABC_STATE_64)
  {
    hide Reached;
    EightMore(v, words, 48, 0x19a4c116, 0x1e376c08, 0x2748774c, 0x34b0bcb5, 0x391c0cb3, 0x4ed8aa4a, 0x5b9cca4f,
              0x682e6ff3, 0xfb3e89cb, 0xcc7617db, 0xb9e66c34, 0xa9993667, 0x84badedd, 0xc21462bc, 0x1487472c,
              0xb20f7a99, 0x4172328d, 0xa14c14b0, 0x72ab4b91, 0x26628815, 0xfecf0bc6, 0xd57b94a9, 0xb7755da1,
              0xa80f11f0, 0x05757ceb, 0xbd714038, 0xf11bfaa8, 0x6e5c390c, 0x7a0508a1, 0x52f1ccf7, 0x886e7a22,
              0x49231c1e, 0x101fd28f, 0x529e7d00, 0xf5702fdb, 0x9f4787c3, 0x3ec45cdb, 0xe50e1b4f, 0x38cc9913,
              0x54cb266b);
    EightMore(v, words, 56, 0x748f82ee, 0x78a5636f, 0x84c87814, 0x8cc70208, 0x90befffa, 0xa4506ceb, 0xbef9a3f7,
              0xc67178f2, 0xef57b9cd, 0xebe6b238, 0x9fe3095e, 0x78bc8d4b, 0xa43fcf15, 0x668b2ff8, 0xeeaba2cc,
              0x12b1edeb, 0x38cc9913, 0x3ec45cdb, 0xf5702fdb, 0x101fd28f, 0x54cb266b, 0xe50e1b4f, 0x9f4787c3,
              0x529e7d00, 0xfcd1887b, 0x9b5e906c, 0xc062d46f, 0x7e44008e, 0xffb70472, 0x6d83bfc6, 0xb6ae8fff,
              0xb21bad3d, 0xb85e2ce9, 0x961f4894, 0x04d24d6c, 0x948d25b6, 0xd39a2165, 0xfb121210, 0x506e3058,
              0x5ef50f24);
  }

  lemma AbcCompressed(block: bytes)
    requires |block| == 64 && Holds(Schedule(block), 0, ABC_0)
    ensures Compress(ABC_STATE_0, block) == ABC_HASH
  {
    hide *;
    var words := Schedule(block);
    ScheduleIs(block);
    AbcWords(words);
    NoRounds(ABC_STATE_0, words);
    AbcRounds0(ABC_STATE_0, words);
    AbcRounds8(ABC_STATE_0, words);
    AbcRounds16(ABC_STATE_0, words);
    AbcRounds32(ABC_STATE_0, words);
    AbcRounds48(ABC_STATE_0, words);
    AbcSum();
    AllRounds(ABC_STATE_0, block);
  }

  lemma AbcSum()
    ensures Add(ABC_STATE_0, ABC_STATE_64) == ABC_HASH
  {
  }

  // A message of two blocks: the first.

  const FIRST_0 := Words(0x61626364, 0x62636465, 0x63646566, 0x64656667, 0x65666768, 0x66676869, 0x6768696a,
                         0x68696a6b, 0x696a6b6c, 0x6a6b6c6d, 0x6b6c6d6e, 0x6c6d6e6f, 0x6d6e6f70, 0x6e6f7071,
                         0x80000000, 0x00000000)
  const FIRST_16 := Words(0xeb8012ad, 0xa7c3ae92, 0x76e93ba2, 0xba42e743, 0x92a92204, 0xd847e75e, 0x9e160036,
                          0xb280a7cb, 0xddeb1516, 0xf36586f4, 0x969cd048, 0xe959d99d, 0x6accc0ec, 0xf54cb098,
                          0x2af1b2da, 0xee59c4c9)
  const FIRST_32 := Words(0xa835e16a, 0x1dff4429, 0xd6e15959, 0xc397cd6e, 0x6f1801ca, 0x21574205, 0x35ff7a84,
                          0x9743ee78, 0xe44183e7, 0x0d09f00d, 0x9c89af54, 0x042d5bef, 0x71f134d0, 0x0f94f463,
                          0x7e49dc63, 0x6f65c997)
  const FIRST_48 := Words(0x0b706583, 0x179312ca, 0x503054e9, 0xba125c39, 0x7e9392c9, 0xd5cbaa1e, 0x78e0585d,
                          0xf6e7611c, 0x8ac830ce, 0x8b47a303, 0xfd6e627f, 0x8c6e2c6a, 0x4001adf1, 0x1a3dd097,
                          0xa9df6f62, 0x6aa60a39)

  const FIRST_STATE_0 := Hash(0x6a09e667, 0xbb67ae85, 0x3c6ef372, 0xa54ff53a, 0x510e527f, 0x9b05688c, 0x1f83d9ab,
                              0x5be0cd19)
  const FIRST_STATE_8 := Hash(0xd237e6db, 0x485835b7, 0x55c8ef48, 0xf921c212, 0xa401d211, 0x39a5b2ca, 0x7ff91c94,
                              0x05c4f88a)
  const FIRST_STATE_16 := Hash(0xc3486194, 0xdd16cbb3, 0xd68e6457, 0x101a4861, 0x1496a54f, 0x9162aded, 0x9243f8af,
                               0x839a0fc9)
  const FIRST_STATE_32 := Hash(0x5581ab07, 0xeb43f3ed, 0xdf7151a0, 0x74bcf468, 0xdf980085, 0x0635d880, 0x7629c961,
                               0x72abaecd)
  const FIRST_STATE_48 := Hash(0x13d82741, 0x165be9cd, 0x18f0d19d, 0xde71e2f2, 0xa7802a4d, 0xa483f080, 0x6b88472c,
                               0xff61c636)
  const FIRST_STATE_64 := Hash(0x1bdc6f6f, 0x86126910, 0xf6f443f8, 0xbcfce922, 0x25d2430a, 0x2fc08f85, 0xacc75916,
                               0x962d8621)
  const FIRST_HASH := Hash(0x85e655d6, 0x417a1795, 0x3363376a, 0x624cde5c, 0x76e09589, 0xcac5f811, 0xcc4b32c1,
                           0xf20e533a)

  lemma FirstWords(words: seq<word>)
    requires Scheduled(words) && Holds(words, 0, FIRST_0)
    ensures Holds(words, 16, FIRST_16) && Holds(words, 32, FIRST_32) && Holds(words, 48, FIRST_48)
  {
    hide Scheduled, Holds;
    SixteenAhead(words, 0, 0x61626364, 0x62636465, 0x63646566, 0x64656667, 0x65666768, 0x66676869, 0x6768696a,
                 0x68696a6b, 0x696a6b6c, 0x6a6b6c6d, 0x6b6c6d6e, 0x6c6d6e6f, 0x6d6e6f70, 0x6e6f7071, 0x80000000,
                 0x00000000, 0xeb8012ad, 0xa7c3ae92, 0x76e93ba2, 0xba42e743, 0x92a92204, 0xd847e75e, 0x9e160036,
                 0xb280a7cb, 0xddeb1516, 0xf36586f4, 0x969cd048, 0xe959d99d, 0x6accc0ec, 0xf54cb098, 0x2af1b2da,
                 0xee59c4c9);
    SixteenAhead(words, 16, 0xeb8012ad, 0xa7c3ae92, 0x76e93ba2, 0xba42e743, 0x92a92204, 0xd847e75e, 0x9e160036,
                 0xb280a7cb, 0xddeb1516, 0xf36586f4, 0x969cd048, 0xe959d99d, 0x6accc0ec, 0xf54cb098, 0x2af1b2da,
                 0xee59c4c9, 0xa835e16a, 0x1dff4429, 0xd6e15959, 0xc397cd6e, 0x6f1801ca, 0x21574205, 0x35ff7a84,
                 0x9743ee78, 0xe44183e7, 0x0d09f00d, 0x9c89af54, 0x042d5bef, 0x71f134d0, 0x0f94f463, 0x7e49dc63,
                 0x6f65c997);
    SixteenAhead(words, 32, 0xa835e16a, 0x1dff4429, 0xd6e15959, 0xc397cd6e, 0x6f1801ca, 0x21574205, 0x35ff7a84,
                 0x9743ee78, 0xe44183e7, 0x0d09f00d, 0x9c89af54, 0x042d5bef, 0x71f134d0, 0x0f94f463, 0x7e49dc63,
                 0x6f65c997, 0x0b706583, 0x179312ca, 0x503054e9, 0xba125c39, 0x7e9392c9, 0xd5cbaa1e, 0x78e0585d,
                 0xf6e7611c, 0x8ac830ce, 0x8b47a303, 0xfd6e627f, 0x8c6e2c6a, 0x4001adf1, 0x1a3dd097, 0xa9df6f62,
                 0x6aa60a39);
  }

  lemma FirstRounds0(v: Hash, words: seq<word>)
    requires |words| == 64 && Holds(words, 0, FIRST_0) && Reached(v, words, 0, FIRST_STATE_0)
    ensures Reached(v, words, 8, FIRST_STATE_8)
  {
    hide Reached;
    EightMore(v, words, 0, 0x428a2f98, 0x71374491, 0xb5c0fbcf, 0xe9b5dba5, 0x3956c25b, 0x59f111f1, 0x923f82a4,
              0xab1c5ed5, 0x61626364, 0x62636465, 0x63646566, 0x64656667, 0x65666768, 0x66676869, 0x6768696a,
              0x68696a6b, 0x6a09e667, 0xbb67ae85, 0x3c6ef372, 0xa54ff53a, 0x510e527f, 0x9b05688c, 0x1f83d9ab,
              0x5be0cd19, 0x5d6aebb1, 0xfa2a4606, 0x2f2d5fcf, 0x4eb1cfce, 0x97651825, 0x62d5c49e, 0x4a8d64d5,
              0x6494841b, 0xf921c212, 0x05c4f88a, 0x55c8ef48, 0x7ff91c94, 0x485835b7, 0x39a5b2ca, 0xd237e6db,
              0xa401d211);
  }

  lemma FirstRounds8(v: Hash, words: seq<word>)
    requires |words| == 64 && Holds(words, 0, FIRST_0) && Reached(v, words, 8, FIRST_STATE_8)
    ensures Reached(v, words, 16, FIRST_STATE_16)
  {
    hide Reached;
    EightMore(v, words, 8, 0xd807aa98, 0x12835b01, 0x243185be, 0x550c7dc3, 0x72be5d74, 0x80deb1fe, 0x9bdc06a7,
              0xc19bf174, 0x696a6b6c, 0x6a6b6c6d, 0x6b6c6d6e, 0x6c6d6e6f, 0x6d6e6f70, 0x6e6f7071, 0x80000000,
              0x00000000, 0xd237e6db, 0x485835b7, 0x55c8ef48, 0xf921c212, 0xa401d211, 0x39a5b2ca, 0x7ff91c94,
              0x05c4f88a, 0x359f2bce, 0xc09ffec4, 0x3a474b2b, 0x9037b3b8, 0xb8e2b4cb, 0x443ed29e, 0x1762215c,
              0xee1c97a8, 0x101a4861, 0x839a0fc9, 0xd68e6457, 0x9243f8af, 0xdd16cbb3, 0x9162aded, 0xc3486194,
              0x1496a54f);
  }

  lemma FirstRounds16(v: Hash, words: seq<word>)
    requires |words| == 64 && Holds(words, 16, FIRST_16) && Reached(v, words, 16, FIRST_STATE_16)
    ensures Reached(v, words, 32, FIRST_STATE_32)
  {
    hide Reached;
    EightMore(v, words, 16, 0xe49b69c1, 0xefbe4786, 0x0fc19dc6, 0x240ca1cc, 0x2de92c6f, 0x4a7484aa, 0x5cb0a9dc,
              0x76f988da, 0xeb8012ad, 0xa7c3ae92, 0x76e93ba2, 0xba42e743, 0x92a92204, 0xd847e75e, 0x9e160036,
              0xb280a7cb, 0xc3486194, 0xdd16cbb3, 0xd68e6457, 0x101a4861, 0x1496a54f, 0x9162aded, 0x9243f8af,
              0x839a0fc9, 0xb9dcacb1, 0xd4f64250, 0x046a193e, 0x885370b6, 0xf402f058, 0x6f433549, 0x2139187b,
              0x7c304206, 0xd70ac17d, 0x7cc6b262, 0x1b2b66b8, 0xd560b028, 0xae2e2d4f, 0xf074fc95, 0x59fce6b9,
              0xa2c7d51d);
    EightMore(v, words, 24, 0x983e5152, 0xa831c66d, 0xb00327c8, 0xbf597fc7, 0xc6e00bf3, 0xd5a79147, 0x06ca6351,
              0x14292967, 0xddeb1516, 0xf36586f4, 0x969cd048, 0xe959d99d, 0x6accc0ec, 0xf54cb098, 0x2af1b2da,
              0xee59c4c9, 0x59fce6b9, 0xae2e2d4f, 0x1b2b66b8, 0xd70ac17d, 0xa2c7d51d, 0xf074fc95, 0xd560b028,
              0x7cc6b262, 0x4a885065, 0x763597fb, 0x573221da, 0x36e74eb4, 0x128661da, 0x1162d575, 0x73f858af,
              0xe77c797f, 0x74bcf468, 0x72abaecd, 0xdf7151a0, 0x7629c961, 0xeb43f3ed, 0x0635d880, 0x5581ab07,
              0xdf980085);
  }

  lemma FirstRounds32(v: Hash, words: seq<word>)
    requires |words| == 64 && Holds(words, 32, FIRST_32) && Reached(v, words, 32, FIRST_STATE_32)
    ensures Reached(v, words, 48, FIRST_STATE_48)
  {
    hide Reached;
    EightMore(v, words, 32, 0x27b70a85, 0x2e1b2138, 0x4d2c6dfc, 0x53380d13, 0x650a7354, 0x766a0abb, 0x81c2c92e,
              0x92722c85, 0xa835e16a, 0x1dff4429, 0xd6e15959, 0xc397cd6e, 0x6f1801ca, 0x21574205, 0x35ff7a84,
              0x9743ee78, 0x5581ab07, 0xeb43f3ed, 0xdf7151a0, 0x74bcf468, 0xdf980085, 0x0635d880, 0x7629c961,
              0x72abaecd, 0x9fc905c8, 0xa94d2af1, 0x9ce5a62f, 0x6ef3b6bd, 0x1df8e885, 0x2a9e048e, 0x0786dce8,
              0xde2a21d1, 0x2c55d3a6, 0xb067c1af, 0xa985b4be, 0xf72bf353, 0x91ac9d5d, 0x68d8d590, 0x7e4d30b8,
              0x9f5b9b6d);
    EightMore(v, words, 40, 0xa2bfe8a1, 0xa81a664b, 0xc24b8b70, 0xc76c51a3, 0xd192e819, 0xd6990624, 0xf40e3585,
              0x106aa070, 0xe44183e7, 0x0d09f00d, 0x9c89af54, 0x042d5bef, 0x71f134d0, 0x0f94f463, 0x7e49dc63,
              0x6f65c997, 0x7e4d30b8, 0x91ac9d5d, 0xa985b4be, 0x2c55d3a6, 0x9f5b9b6d, 0x68d8d590, 0xf72bf353,
              0xb067c1af, 0x7e056794, 0x423b26c0, 0x508a16ab, 0x45459d97, 0xb62c7013, 0x80a92a00, 0x167361de,
              0x41dd3844, 0xde71e2f2, 0xff61c636, 0x18f0d19d, 0x6b88472c, 0x165be9cd, 0xa483f080, 0x13d82741,
              0xa7802a4d);
  }

  lemma FirstRounds48(v: Hash, words: seq<word>)
    requires |words| == 64 && Holds(words, 48, FIRST_48) && Reached(v, words, 48, FIRST_STATE_48)
    ensures Reached(v, words, 64, FIRST_STATE_64)
  {
    hide Reached;
    EightMore(v, words, 48, 0x19a4c116, 0x1e376c08, 0x2748774c, 0x34b0bcb5, 0x391c0cb3, 0x4ed8aa4a, 0x5b9cca4f,
              0x682e6ff3, 0x0b706583, 0x179312ca, 0x503054e9, 0xba125c39, 0x7e9392c9, 0xd5cbaa1e, 0x78e0585d,
              0xf6e7611c, 0x13d82741, 0x165be9cd, 0x18f0d19d, 0xde71e2f2, 0xa7802a4d, 0xa483f080, 0x6b88472c,
              0xff61c636, 0x017b9d99, 0xaeb10b60, 0x543c99a1, 0x16f134b6, 0x758ca97a, 0x100cf2ea, 0x81c1cde0,
              0x5c47eb7b, 0xb8d55619, 0x1c806a61, 0x1d6de87a, 0x3443bed4, 0xf907b313, 0x61a41711, 0x9e57c4a0,
              0xeec13548);
    EightMore(v, words, 56, 0x748f82ee, 0x78a5636f, 0x84c87814, 0x8cc70208, 0x90befffa, 0xa4506ceb, 0xbef9a3f7,
              0xc67178f2, 0x8ac830ce, 0x8b47a303, 0xfd6e627f, 0x8c6e2c6a, 0x4001adf1, 0x1a3dd097, 0xa9df6f62,
              0x6aa60a39, 0x9e57c4a0, 0xf907b313, 0x1d6de87a, 0xb8d55619, 0xeec13548, 0x61a41711, 0x3443bed4,
              0x1c806a61, 0x71629856, 0x2f6c8c4e, 0x7c015a2c, 0xcb9d3dd0, 0x921fccb6, 0x43d8a034, 0xe18f259a,
              0x51e15869, 0xbcfce922, 0x962d8621, 0xf6f443f8, 0xacc75916, 0x86126910, 0x2fc08f85, 0x1bdc6f6f,
              0x25d2430a);
  }

  lemma FirstCompressed(block: bytes)
    requires |block| == 64 && Holds(Schedule(block), 0, FIRST_0)
    ensures Compress(FIRST_STATE_0, block) == FIRST_HASH
  {
    hide *;
    var words := Schedule(block);
    ScheduleIs(block);
    FirstWords(words);
    NoRounds(FIRST_STATE_0, words);
    FirstRounds0(FIRST_STATE_0, words);
    FirstRounds8(FIRST_STATE_0, words);
    FirstRounds16(FIRST_STATE_0, words);
    FirstRounds32(FIRST_STATE_0, words);
    FirstRounds48(FIRST_STATE_0, words);
    FirstSum();
    AllRounds(FIRST_STATE_0, block);
  }

  lemma FirstSum()
    ensures Add(FIRST_STATE_0, FIRST_STATE_64) == FIRST_HASH
  {
  }

  // The second.

  const SECOND_0 := Words(0x00000000, 0x00000000, 0x00000000, 0x00000000, 0x00000000, 0x00000000, 0x00000000,
                          0x00000000, 0x00000000, 0x00000000, 0x00000000, 0x00000000, 0x00000000, 0x00000000,
                          0x00000000, 0x000001c0)
  const SECOND_16 := Words(0x00000000, 0x00d80000, 0x00000000, 0x00003677, 0x00000000, 0x1df5600d, 0x000001c0,
                           0x1c00501c, 0x01b00000, 0x220a8d94, 0x0000a365, 0x177017e7, 0x63d38035, 0x090ab713,
                           0x4c7539ca, 0x0f19a8c9)
  const SECOND_32 := Words(0x5df4b0c4, 0xe257036a, 0xc97bb6f1, 0xc5b46f4d, 0xf8253c4e, 0xa558d189, 0x78696285,
                           0xed07117f, 0x107358f6, 0x390ae496, 0x565010a2, 0xc51d7d44, 0x9e74c972, 0x6614b561,
                           0x30fc129d, 0x9ac684a8)
  const SECOND_48 := Words(0x2b658dbd, 0xe290f793, 0x9eebb24c, 0x9713b5de, 0x41061ab7, 0xe022e23b, 0x0772079e,
                           0x7de22d9c, 0xc8b83778, 0x75a79849, 0xd93dbddb, 0x0a036c9d, 0xcb4f6ac6, 0x823f97e2,
                           0xea2f2a7a, 0xb9018b52)

  const SECOND_STATE_0 := Hash(0x85e655d6, 0x417a1795, 0x3363376a, 0x624cde5c, 0x76e09589, 0xcac5f811, 0xcc4b32c1,
                               0xf20e533a)
  const SECOND_STATE_8 := Hash(0xbf9a93a0, 0x89bba3f1, 0x3eeb6c06, 0x185a5d79, 0x059abdd1, 0x0a34df03, 0xfe20cda6,
                               0x8dff3001)
  const SECOND_STATE_16 := Hash(0x16a8cc79, 0x0cea5cbc, 0xd74080fa, 0x35ee996d, 0x0fcb1f6f, 0x60356548, 0x68aa893f,
                                0x5c24e2a2)
  const SECOND_STATE_32 := Hash(0xb0eab1c5, 0x02ef3a5f, 0x1cfa5eb0, 0xd958b529, 0xf6d93952, 0x5da10665, 0x6c49db9f,
                                0xc2fa99b1)
  const SECOND_STATE_48 := Hash(0xd7354d5b, 0x0b3303a7, 0x104a7db4, 0x0f154e11, 0xaad55b6b, 0xbbe1c39a, 0x5348e8f6,
                                0x6f9517cb)
  const SECOND_STATE_64 := Hash(0x9ea7148b, 0x908c2123, 0xb25cef29, 0xa9f181dd, 0x2c5c4ed0, 0x9a392956, 0x2aa1bb13,
                                0x27ccb387)
  const SECOND_HASH := Hash(0x248d6a61, 0xd20638b8, 0xe5c02693, 0x0c3e6039, 0xa33ce459, 0x64ff2167, 0xf6ecedd4,
                            0x19db06c1)

  lemma SecondWords(words: seq<word>)
    requires Scheduled(words) && Holds(words, 0, SECOND_0)
    ensures Holds(words, 16, SECOND_16) && Holds(words, 32, SECOND_32) && Holds(words, 48, SECOND_48)
  {
    hide Scheduled, Holds;
    SixteenAhead(words, 0, 0x00000000, 0x00000000, 0x00000000, 0x00000000, 0x00000000, 0x00000000, 0x00000000,
                 0x00000000, 0x00000000, 0x00000000, 0x00000000, 0x00000000, 0x00000000, 0x00000000, 0x00000000,
                 0x000001c0, 0x00000000, 0x00d80000, 0x00000000, 0x00003677, 0x00000000, 0x1df5600d, 0x000001c0,
                 0x1c00501c, 0x01b00000, 0x220a8d94, 0x0000a365, 0x177017e7, 0x63d38035, 0x090ab713, 0x4c7539ca,
                 0x0f19a8c9);
    SixteenAhead(words, 16, 0x00000000, 0x00d80000, 0x00000000, 0x00003677, 0x00000000, 0x1df5600d, 0x000001c0,
                 0x1c00501c, 0x01b00000, 0x220a8d94, 0x0000a365, 0x177017e7, 0x63d38035, 0x090ab713, 0x4c7539ca,
                 0x0f19a8c9, 0x5df4b0c4, 0xe257036a, 0xc97bb6f1, 0xc5b46f4d, 0xf8253c4e, 0xa558d189, 0x78696285,
                 0xed07117f, 0x107358f6, 0x390ae496, 0x565010a2, 0xc51d7d44, 0x9e74c972, 0x6614b561, 0x30fc129d,
                 0x9ac684a8);
    SixteenAhead(words, 32, 0x5df4b0c4, 0xe257036a, 0xc97bb6f1, 0xc5b46f4d, 0xf8253c4e, 0xa558d189, 0x78696285,
                 0xed07117f, 0x107358f6, 0x390ae496, 0x565010a2, 0xc51d7d44, 0x9e74c972, 0x6614b561, 0x30fc129d,
                 0x9ac684a8, 0x2b658dbd, 0xe290f793, 0x9eebb24c, 0x9713b5de, 0x41061ab7, 0xe022e23b, 0x0772079e,
                 0x7de22d9c, 0xc8b83778, 0x75a79849, 0xd93dbddb, 0x0a036c9d, 0xcb4f6ac6, 0x823f97e2, 0xea2f2a7a,
                 0xb9018b52);
  }

  lemma SecondRounds0(v: Hash, words: seq<word>)
    requires |words| == 64 && Holds(words, 0, SECOND_0) && Reached(v, words, 0, SECOND_STATE_0)
    ensures Reached(v, words, 8, SECOND_STATE_8)
  {
    hide Reached;
    EightMore(v, words, 0, 0x428a2f98, 0x71374491, 0xb5c0fbcf, 0xe9b5dba5, 0x3956c25b, 0x59f111f1, 0x923f82a4,
              0xab1c5ed5, 0x00000000, 0x00000000, 0x00000000, 0x00000000, 0x00000000, 0x00000000, 0x00000000,
              0x00000000, 0x85e655d6, 0x417a1795, 0x3363376a, 0x624cde5c, 0x76e09589, 0xcac5f811, 0xcc4b32c1,
              0xf20e533a, 0x7c20c838, 0x4670ae6e, 0x7c3c0f86, 0x8c51be64, 0xfd1eebdc, 0xaf71b9ea, 0xf268faa9,
              0xe20362ef, 0x185a5d79, 0x8dff3001, 0x3eeb6c06, 0xfe20cda6, 0x89bba3f1, 0x0a34df03, 0xbf9a93a0,
              0x059abdd1);
  }

  lemma SecondRounds8(v: Hash, words: seq<word>)
    requires |words| == 64 && Holds(words, 0, SECOND_0) && Reached(v, words, 8, SECOND_STATE_8)
    ensures Reached(v, words, 16, SECOND_STATE_16)
  {
    hide Reached;
    EightMore(v, words, 8, 0xd807aa98, 0x12835b01, 0x243185be, 0x550c7dc3, 0x72be5d74, 0x80deb1fe, 0x9bdc06a7,
              0xc19bf174, 0x00000000, 0x00000000, 0x00000000, 0x00000000, 0x00000000, 0x00000000, 0x00000000,
              0x000001c0, 0xbf9a93a0, 0x89bba3f1, 0x3eeb6c06, 0x185a5d79, 0x059abdd1, 0x0a34df03, 0xfe20cda6,
              0x8dff3001, 0x2c096744, 0xabfa465b, 0x2d964e86, 0xaa27ed82, 0x5b35025b, 0x10e77723, 0x5eb4ec40,
              0xe11b4548, 0x35ee996d, 0x5c24e2a2, 0xd74080fa, 0x68aa893f, 0x0cea5cbc, 0x60356548, 0x16a8cc79,
              0x0fcb1f6f);
  }

  lemma SecondRounds16(v: Hash, words: seq<word>)
    requires |words| == 64 && Holds(words, 16, SECOND_16) && Reached(v, words, 16, SECOND_STATE_16)
    ensures Reached(v, words, 32, SECOND_STATE_32)
  {
    hide Reached;
    EightMore(v, words, 16, 0xe49b69c1, 0xefbe4786, 0x0fc19dc6, 0x240ca1cc, 0x2de92c6f, 0x4a7484aa, 0x5cb0a9dc,
              0x76f988da, 0x00000000, 0x00d80000, 0x00000000, 0x00003677, 0x00000000, 0x1df5600d, 0x000001c0,
              0x1c00501c, 0x16a8cc79, 0x0cea5cbc, 0xd74080fa, 0x35ee996d, 0x0fcb1f6f, 0x60356548, 0x68aa893f,
              0x5c24e2a2, 0xf16f634e, 0x8b21cdc1, 0x23dcb6c2, 0xca9182d3, 0xdcff40fd, 0x69bf7b95, 0x76f1a2bc,
              0x0dc84bb1, 0x20aad899, 0xcc4769f2, 0xd44dc81a, 0x5bace62d, 0xf13ae55b, 0x966aa287, 0xa4195b91,
              0xeddbd6ed);
    EightMore(v, words, 24, 0x983e5152, 0xa831c66d, 0xb00327c8, 0xbf597fc7, 0xc6e00bf3, 0xd5a79147, 0x06ca6351,
              0x14292967, 0x01b00000, 0x220a8d94, 0x0000a365, 0x177017e7, 0x63d38035, 0x090ab713, 0x4c7539ca,
              0x0f19a8c9, 0xa4195b91, 0xf13ae55b, 0xd44dc81a, 0x20aad899, 0xeddbd6ed, 0x966aa287, 0x5bace62d,
              0xcc4769f2, 0x4984fa79, 0xa530d939, 0xaa6cb982, 0x0b5eeea4, 0x9450fbbc, 0x09166dda, 0x0d936bab,
              0x6e495d4b, 0xd958b529, 0xc2fa99b1, 0x1cfa5eb0, 0x6c49db9f, 0x02ef3a5f, 0x5da10665, 0xb0eab1c5,
              0xf6d93952);
  }

  lemma SecondRounds32(v: Hash, words: seq<word>)
    requires |words| == 64 && Holds(words, 32, SECOND_32) && Reached(v, words, 32, SECOND_STATE_32)
    ensures Reached(v, words, 48, SECOND_STATE_48)
  {
    hide Reached;
    EightMore(v, words, 32, 0x27b70a85, 0x2e1b2138, 0x4d2c6dfc, 0x53380d13, 0x650a7354, 0x766a0abb, 0x81c2c92e,
              0x92722c85, 0x5df4b0c4, 0xe257036a, 0xc97bb6f1, 0xc5b46f4d, 0xf8253c4e, 0xa558d189, 0x78696285,
              0xed07117f, 0xb0eab1c5, 0x02ef3a5f, 0x1cfa5eb0, 0xd958b529, 0xf6d93952, 0x5da10665, 0x6c49db9f,
              0xc2fa99b1, 0x0bfba73c, 0x8b99e3a9, 0x4bd1df96, 0x905e44ac, 0x9907f1b6, 0x66c3043d, 0xecde4e0d,
              0x5dc119e6, 0x2f11c939, 0xfed4ce1d, 0xd949682b, 0x32d99008, 0xadca7a96, 0xc6cce4ff, 0x221b8a5a,
              0x0b82c5eb);
    EightMore(v, words, 40, 0xa2bfe8a1, 0xa81a664b, 0xc24b8b70, 0xc76c51a3, 0xd192e819, 0xd6990624, 0xf40e3585,
              0x106aa070, 0x107358f6, 0x390ae496, 0x565010a2, 0xc51d7d44, 0x9e74c972, 0x6614b561, 0x30fc129d,
              0x9ac684a8, 0x221b8a5a, 0xadca7a96, 0xd949682b, 0x2f11c939, 0x0b82c5eb, 0xc6cce4ff, 0x32d99008,
              0xfed4ce1d, 0x12d97845, 0xe4213ca2, 0x2c794876, 0xff6759ba, 0x8300fca2, 0xe0e3457c, 0xf2ad6322,
              0xcc48c7f3, 0x0f154e11, 0x6f9517cb, 0x104a7db4, 0x5348e8f6, 0x0b3303a7, 0xbbe1c39a, 0xd7354d5b,
              0xaad55b6b);
  }

  lemma SecondRounds48(v: Hash, words: seq<word>)
    requires |words| == 64 && Holds(words, 48, SECOND_48) && Reached(v, words, 48, SECOND_STATE_48)
    ensures Reached(v, words, 64, SECOND_STATE_64)
  {
    hide Reached;
    EightMore(v, words, 48, 0x19a4c116, 0x1e376c08, 0x2748774c, 0x34b0bcb5, 0x391c0cb3, 0x4ed8aa4a, 0x5b9cca4f,
              0x682e6ff3, 0x2b658dbd, 0xe290f793, 0x9eebb24c, 0x9713b5de, 0x41061ab7, 0xe022e23b, 0x0772079e,
              0x7de22d9c, 0xd7354d5b, 0x0b3303a7, 0x104a7db4, 0x0f154e11, 0xaad55b6b, 0xbbe1c39a, 0x5348e8f6,
              0x6f9517cb, 0xb736d7a6, 0x68f25260, 0x2748e5ec, 0xd4b58576, 0xd8aabcf9, 0x27844711, 0x1a6bcf6a,
              0xff5e99d0, 0x4eca6fa0, 0x989ed071, 0xec02560a, 0x7151df8e, 0xd9f0c115, 0x624150c4, 0x92952710,
              0x226806d6);
    EightMore(v, words, 56, 0x748f82ee, 0x78a5636f, 0x84c87814, 0x8cc70208, 0x90befffa, 0xa4506ceb, 0xbef9a3f7,
              0xc67178f2, 0xc8b83778, 0x75a79849, 0xd93dbddb, 0x0a036c9d, 0xcb4f6ac6, 0x823f97e2, 0xea2f2a7a,
              0xb9018b52, 0x92952710, 0xd9f0c115, 0xec02560a, 0x4eca6fa0, 0x226806d6, 0x624150c4, 0x7151df8e,
              0x989ed071, 0x20d4d0e4, 0x4e515a4d, 0x4348eb1f, 0xc21eddf9, 0x286fe5f0, 0x54076664, 0x1c4cddd9,
              0xf487a853, 0xa9f181dd, 0x27ccb387, 0xb25cef29, 0x2aa1bb13, 0x908c2123, 0x9a392956, 0x9ea7148b,
              0x2c5c4ed0);
  }

  lemma SecondCompressed(block: bytes)
    requires |block| == 64 && Holds(Schedule(block), 0, SECOND_0)
    ensures Compress(SECOND_STATE_0, block) == SECOND_HASH
  {
    hide *;
    var words := Schedule(block);
    ScheduleIs(block);
    SecondWords(words);
    NoRounds(SECOND_STATE_0, words);
    SecondRounds0(SECOND_STATE_0, words);
    SecondRounds8(SECOND_STATE_0, words);
    SecondRounds16(SECOND_STATE_0, words);
    SecondRounds32(SECOND_STATE_0, words);
    SecondRounds48(SECOND_STATE_0, words);
    SecondSum();
    AllRounds(SECOND_STATE_0, block);
  }

  lemma SecondSum()
    ensures Add(SECOND_STATE_0, SECOND_STATE_64) == SECOND_HASH
  {
  }

  // The messages.

  /** "abc". */
  const ABC_MESSAGE: bytes := [0x61, 0x62, 0x63]

  /** "abcdbcdecdefdefgefghfghighijhijkijkljklmklmnlmnomnopnopq". */
  function TwoBlocks(): (r: bytes)
    ensures |r| == 56
  {
    seq(56, i requires 0 <= i < 56 => 0x61 + i / 4 + i % 4)
  }

  lemma WordAt(block: bytes, t: nat, w: word)
    requires |block| == 64 && t < 16
    requires Word(block[4 * t], block[4 * t + 1], block[4 * t + 2], block[4 * t + 3]) == w
    ensures Schedule(block)[t] == w
  {
    hide Word;
  }

  lemma AbcWordsAre()
    ensures Word(0x61, 0x62, 0x63, 0x80) == 0x61626380 && Word(0, 0, 0, 0) == 0 && Word(0, 0, 0, 0x18) == 0x18
  {
  }

  lemma AbcOpens(block: bytes)
    requires |block| == 64 && block[0] == 0x61 && block[1] == 0x62 && block[2] == 0x63 && block[3] == 0x80
    requires (forall i :: 4 <= i < 63 ==> block[i] == 0) && block[63] == 0x18
    ensures Holds(Schedule(block), 0, ABC_0)
  {
    hide *;
    AbcWordsAre();
    WordAt(block, 0, 0x61626380);
    forall t | 1 <= t < 15
      ensures Schedule(block)[t] == 0
    {
      WordAt(block, t, 0);
    }
    WordAt(block, 15, 0x18);
    AbcHeld(Schedule(block));
  }

  lemma AbcHeld(words: seq<word>)
    requires |words| == 64 && words[0] == 0x61626380 && words[15] == 0x18 && forall t :: 1 <= t < 15 ==> words[t] == 0
    ensures Holds(words, 0, ABC_0)
  {
  }

  lemma AbcPadded()
    ensures var block := Pad(ABC_MESSAGE);
            && |block| == 64 && block[0] == 0x61 && block[1] == 0x62 && block[2] == 0x63 && block[3] == 0x80
            && (forall i :: 4 <= i < 63 ==> block[i] == 0) && block[63] == 0x18
  {
    ShortLength(24);
  }

  /** The octets of a length below 256. */
  lemma ShortLength(n: nat)
    requires n < 0x100
    ensures (forall i :: 0 <= i < 7 ==> LengthOctet(n, i) == 0) && LengthOctet(n, 7) == n
  {
  }

  lemma AbcDigest()
    ensures Sha256(ABC_MESSAGE) ==
            [0xba, 0x78, 0x16, 0xbf, 0x8f, 0x01, 0xcf, 0xea, 0x41, 0x41, 0x40, 0xde, 0x5d, 0xae, 0x22, 0x23, 0xb0, 0x03,
             0x61, 0xa3, 0x96, 0x17, 0x7a, 0x9c, 0xb4, 0x10, 0xff, 0x61, 0xf2, 0x00, 0x15, 0xad]
  {
    AbcPadded();
    AbcOpens(Pad(ABC_MESSAGE));
    AbcCompressed(Pad(ABC_MESSAGE));
    AbcStart();
    FoldBlock(InitialHash(), Pad(ABC_MESSAGE));
    AbcOctets();
    hide Pad, Compress, Fold, HashOctets;
  }

  lemma AbcStart()
    ensures InitialHash() == ABC_STATE_0 && InitialHash() == FIRST_STATE_0 && FIRST_HASH == SECOND_STATE_0
  {
  }

  lemma AbcOctets()
    ensures HashOctets(ABC_HASH) ==
            [0xba, 0x78, 0x16, 0xbf, 0x8f, 0x01, 0xcf, 0xea, 0x41, 0x41, 0x40, 0xde, 0x5d, 0xae, 0x22, 0x23, 0xb0, 0x03,
             0x61, 0xa3, 0x96, 0x17, 0x7a, 0x9c, 0xb4, 0x10, 0xff, 0x61, 0xf2, 0x00, 0x15, 0xad]
  {
  }

  lemma FirstWordsAre()
    ensures Word(0x61, 0x62, 0x63, 0x64) == 0x61626364 && Word(0x62, 0x63, 0x64, 0x65) == 0x62636465
    ensures Word(0x63, 0x64, 0x65, 0x66) == 0x63646566 && Word(0x64, 0x65, 0x66, 0x67) == 0x64656667
    ensures Word(0x65, 0x66, 0x67, 0x68) == 0x65666768 && Word(0x66, 0x67, 0x68, 0x69) == 0x66676869
    ensures Word(0x67, 0x68, 0x69, 0x6a) == 0x6768696a && Word(0x68, 0x69, 0x6a, 0x6b) == 0x68696a6b
    ensures Word(0x69, 0x6a, 0x6b, 0x6c) == 0x696a6b6c && Word(0x6a, 0x6b, 0x6c, 0x6d) == 0x6a6b6c6d
    ensures Word(0x6b, 0x6c, 0x6d, 0x6e) == 0x6b6c6d6e && Word(0x6c, 0x6d, 0x6e, 0x6f) == 0x6c6d6e6f
    ensures Word(0x6d, 0x6e, 0x6f, 0x70) == 0x6d6e6f70 && Word(0x6e, 0x6f, 0x70, 0x71) == 0x6e6f7071
    ensures Word(0x80, 0, 0, 0) == 0x80000000 && Word(0, 0, 0, 0) == 0 && Word(0, 0, 1, 0xc0) == 0x1c0
  {
  }

  lemma FirstOpens(block: bytes)
    requires |block| == 64 && forall i :: 0 <= i < 56 ==> block[i] == 0x61 + i / 4 + i % 4
    requires block[56] == 0x80 && forall i :: 57 <= i < 64 ==> block[i] == 0
    ensures Holds(Schedule(block), 0, FIRST_0)
  {
    hide *;
    FirstWordsAre();
    WordAt(block, 0, 0x61626364);
    WordAt(block, 1, 0x62636465);
    WordAt(block, 2, 0x63646566);
    WordAt(block, 3, 0x64656667);
    WordAt(block, 4, 0x65666768);
    WordAt(block, 5, 0x66676869);
    WordAt(block, 6, 0x6768696a);
    WordAt(block, 7, 0x68696a6b);
    WordAt(block, 8, 0x696a6b6c);
    WordAt(block, 9, 0x6a6b6c6d);
    WordAt(block, 10, 0x6b6c6d6e);
    WordAt(block, 11, 0x6c6d6e6f);
    WordAt(block, 12, 0x6d6e6f70);
    WordAt(block, 13, 0x6e6f7071);
    WordAt(block, 14, 0x80000000);
    WordAt(block, 15, 0x00000000);
    FirstHeld(Schedule(block));
  }

  lemma FirstHeld(words: seq<word>)
    requires |words| == 64
    requires words[0] == 0x61626364 && words[1] == 0x62636465 && words[2] == 0x63646566 && words[3] == 0x64656667
    requires words[4] == 0x65666768 && words[5] == 0x66676869 && words[6] == 0x6768696a && words[7] == 0x68696a6b
    requires words[8] == 0x696a6b6c && words[9] == 0x6a6b6c6d && words[10] == 0x6b6c6d6e && words[11] == 0x6c6d6e6f
    requires words[12] == 0x6d6e6f70 && words[13] == 0x6e6f7071 && words[14] == 0x80000000 && words[15] == 0x00000000
    ensures Holds(words, 0, FIRST_0)
  {
  }

  lemma SecondOpens(block: bytes)
    requires |block| == 64 && forall i :: 0 <= i < 62 ==> block[i] == 0
    requires block[62] == 1 && block[63] == 0xc0
    ensures Holds(Schedule(block), 0, SECOND_0)
  {
    hide *;
    FirstWordsAre();
    forall t | 0 <= t < 15
      ensures Schedule(block)[t] == 0
    {
      WordAt(block, t, 0);
    }
    WordAt(block, 15, 0x1c0);
    SecondHeld(Schedule(block));
  }

  lemma SecondHeld(words: seq<word>)
    requires |words| == 64 && words[15] == 0x1c0 && forall t :: 0 <= t < 15 ==> words[t] == 0
    ensures Holds(words, 0, SECOND_0)
  {
  }

  lemma LongerLength()
    ensures (forall i :: 0 <= i < 6 ==> LengthOctet(448, i) == 0) && LengthOctet(448, 6) == 1
    ensures LengthOctet(448, 7) == 0xc0
  {
  }

  lemma TwoBlocksPadded()
    ensures var m := Pad(TwoBlocks());
            && |m| == 128 && (forall i :: 0 <= i < 56 ==> m[i] == 0x61 + i / 4 + i % 4) && m[56] == 0x80
            && (forall i :: 57 <= i < 126 ==> m[i] == 0) && m[126] == 1 && m[127] == 0xc0
  {
    LongerLength();
    hide LengthOctet;
  }

  lemma TwoBlocksDigest()
    ensures Sha256(TwoBlocks()) ==
            [0x24, 0x8d, 0x6a, 0x61, 0xd2, 0x06, 0x38, 0xb8, 0xe5, 0xc0, 0x26, 0x93, 0x0c, 0x3e, 0x60, 0x39, 0xa3, 0x3c,
             0xe4, 0x59, 0x64, 0xff, 0x21, 0x67, 0xf6, 0xec, 0xed, 0xd4, 0x19, 0xdb, 0x06, 0xc1]
  {
    var m := Pad(TwoBlocks());
    TwoBlocksPadded();
    hide Pad, Compress, Fold, HashOctets, Holds, Schedule;
    var first, second := m[..64], m[64..];
    FirstOpens(first);
    SecondOpens(second);
    FirstCompressed(first);
    SecondCompressed(second);
    AbcStart();
    assert m == first + second;
    FoldSplit(InitialHash(), first, second);
    FoldBlock(InitialHash(), first);
    FoldBlock(FIRST_HASH, second);
    TwoBlocksOctets();
  }

  lemma TwoBlocksOctets()
    ensures HashOctets(SECOND_HASH) ==
            [0x24, 0x8d, 0x6a, 0x61, 0xd2, 0x06, 0x38, 0xb8, 0xe5, 0xc0, 0x26, 0x93, 0x0c, 0x3e, 0x60, 0x39, 0xa3, 0x3c,
             0xe4, 0x59, 0x64, 0xff, 0x21, 0x67, 0xf6, 0xec, 0xed, 0xd4, 0x19, 0xdb, 0x06, 0xc1]
  {
  }

  // In hexadecimal.

  lemma {:induction false} HexAt(b: bytes, i: nat)
    requires i < |b|
    ensures Hex(b)[2 * i] == HexDigit(b[i] / 16) && Hex(b)[2 * i + 1] == HexDigit(b[i] % 16)
  {
    if i > 0 {
      HexAt(b[1..], i - 1);
    }
  }

  lemma DigitIs(n: nat)
    requires n < 16
    ensures HexDigit(n) == Text("0123456789abcdef")[n]
  {
  }
}
