// The hash computation of SHA-256 for the message "abc", round by round.
module Sha2Abc256 {
  import opened BitStrings
  import opened Circuit
  import opened CircuitBits
  import opened Sha2
  import opened Sha2Abc
  import opened Sha2Circuit
  import opened Sha2Gadgets
  import opened Sha2Traces
  import opened Sha2Variants
  import opened Sha2Words

  /** The padded message. */
  const BLOCK: seq<nat> := [0x61626380, 0, 0, 0, 0, 0, 0, 0, 0, 0, 0, 0, 0, 0, 0, 24]

  lemma Constants0()
    ensures ConstantIs(SHA256, 0, 0x428a2f98) && ConstantIs(SHA256, 1, 0x71374491)
    ensures ConstantIs(SHA256, 2, 0xb5c0fbcf) && ConstantIs(SHA256, 3, 0xe9b5dba5)
    ensures ConstantIs(SHA256, 4, 0x3956c25b) && ConstantIs(SHA256, 5, 0x59f111f1)
    ensures ConstantIs(SHA256, 6, 0x923f82a4) && ConstantIs(SHA256, 7, 0xab1c5ed5)
  {
  }

  lemma Constants8()
    ensures ConstantIs(SHA256, 8, 0xd807aa98) && ConstantIs(SHA256, 9, 0x12835b01)
    ensures ConstantIs(SHA256, 10, 0x243185be) && ConstantIs(SHA256, 11, 0x550c7dc3)
    ensures ConstantIs(SHA256, 12, 0x72be5d74) && ConstantIs(SHA256, 13, 0x80deb1fe)
    ensures ConstantIs(SHA256, 14, 0x9bdc06a7) && ConstantIs(SHA256, 15, 0xc19bf174)
  {
  }

  lemma Constants16()
    ensures ConstantIs(SHA256, 16, 0xe49b69c1) && ConstantIs(SHA256, 17, 0xefbe4786)
    ensures ConstantIs(SHA256, 18, 0xfc19dc6) && ConstantIs(SHA256, 19, 0x240ca1cc)
    ensures ConstantIs(SHA256, 20, 0x2de92c6f) && ConstantIs(SHA256, 21, 0x4a7484aa)
    ensures ConstantIs(SHA256, 22, 0x5cb0a9dc) && ConstantIs(SHA256, 23, 0x76f988da)
  {
  }

  lemma Constants24()
    ensures ConstantIs(SHA256, 24, 0x983e5152) && ConstantIs(SHA256, 25, 0xa831c66d)
    ensures ConstantIs(SHA256, 26, 0xb00327c8) && ConstantIs(SHA256, 27, 0xbf597fc7)
    ensures ConstantIs(SHA256, 28, 0xc6e00bf3) && ConstantIs(SHA256, 29, 0xd5a79147)
    ensures ConstantIs(SHA256, 30, 0x6ca6351) && ConstantIs(SHA256, 31, 0x14292967)
  {
  }

  lemma Constants32()
    ensures ConstantIs(SHA256, 32, 0x27b70a85) && ConstantIs(SHA256, 33, 0x2e1b2138)
    ensures ConstantIs(SHA256, 34, 0x4d2c6dfc) && ConstantIs(SHA256, 35, 0x53380d13)
    ensures ConstantIs(SHA256, 36, 0x650a7354) && ConstantIs(SHA256, 37, 0x766a0abb)
    ensures ConstantIs(SHA256, 38, 0x81c2c92e) && ConstantIs(SHA256, 39, 0x92722c85)
  {
  }

  lemma Constants40()
    ensures ConstantIs(SHA256, 40, 0xa2bfe8a1) && ConstantIs(SHA256, 41, 0xa81a664b)
    ensures ConstantIs(SHA256, 42, 0xc24b8b70) && ConstantIs(SHA256, 43, 0xc76c51a3)
    ensures ConstantIs(SHA256, 44, 0xd192e819) && ConstantIs(SHA256, 45, 0xd6990624)
    ensures ConstantIs(SHA256, 46, 0xf40e3585) && ConstantIs(SHA256, 47, 0x106aa070)
  {
  }

  lemma Constants48()
    ensures ConstantIs(SHA256, 48, 0x19a4c116) && ConstantIs(SHA256, 49, 0x1e376c08)
    ensures ConstantIs(SHA256, 50, 0x2748774c) && ConstantIs(SHA256, 51, 0x34b0bcb5)
    ensures ConstantIs(SHA256, 52, 0x391c0cb3) && ConstantIs(SHA256, 53, 0x4ed8aa4a)
    ensures ConstantIs(SHA256, 54, 0x5b9cca4f) && ConstantIs(SHA256, 55, 0x682e6ff3)
  {
  }

  lemma Constants56()
    ensures ConstantIs(SHA256, 56, 0x748f82ee) && ConstantIs(SHA256, 57, 0x78a5636f)
    ensures ConstantIs(SHA256, 58, 0x84c87814) && ConstantIs(SHA256, 59, 0x8cc70208)
    ensures ConstantIs(SHA256, 60, 0x90befffa) && ConstantIs(SHA256, 61, 0xa4506ceb)
    ensures ConstantIs(SHA256, 62, 0xbef9a3f7) && ConstantIs(SHA256, 63, 0xc67178f2)
  {
  }

  // ---- Message schedule ----

  lemma Words0() returns (w: Window)
    ensures WordsAre(SHA256, BLOCK, 0, w)
    ensures w == Window(0x61626380, 0, 0, 0, 0, 0, 0, 0, 0, 0, 0, 0, 0, 0, 0, 0x18)
  {
    w := Window(0x61626380, 0, 0, 0, 0, 0, 0, 0, 0, 0, 0, 0, 0, 0, 0, 0x18);
    FirstWords();
    hide WordIs;
  }

  lemma FirstWords()
    ensures WordIs(SHA256, BLOCK, 0, 0x61626380) && WordIs(SHA256, BLOCK, 1, 0)
    ensures WordIs(SHA256, BLOCK, 2, 0) && WordIs(SHA256, BLOCK, 3, 0)
    ensures WordIs(SHA256, BLOCK, 4, 0) && WordIs(SHA256, BLOCK, 5, 0)
    ensures WordIs(SHA256, BLOCK, 6, 0) && WordIs(SHA256, BLOCK, 7, 0)
    ensures WordIs(SHA256, BLOCK, 8, 0) && WordIs(SHA256, BLOCK, 9, 0)
    ensures WordIs(SHA256, BLOCK, 10, 0) && WordIs(SHA256, BLOCK, 11, 0)
    ensures WordIs(SHA256, BLOCK, 12, 0) && WordIs(SHA256, BLOCK, 13, 0)
    ensures WordIs(SHA256, BLOCK, 14, 0) && WordIs(SHA256, BLOCK, 15, 0x18)
  {
  }

  lemma Words16() returns (w: Window)
    ensures WordsAre(SHA256, BLOCK, 16, w)
    ensures w == Window(0x61626380, 0xf0000, 0x7da86405, 0x600003c6, 0x3e9d7b78, 0x183fc00, 0x12dcbfdb, 0xe2e2c38e,
                        0xc8215c1a, 0xb73679a2, 0xe5bc3909, 0x32663c5b, 0x9d209d67, 0xec8726cb, 0x702138a4,
                        0xd3b7973b)
  {
    hide WordsAre;
    w := Words0();
    w := Slide256(BLOCK, 0, w, 0, 0, 0x61626380);
    w := Slide256(BLOCK, 1, w, 0xf0000, 0, 0xf0000);
    w := Slide256(BLOCK, 2, w, 0x7da86405, 0, 0x7da86405);
    w := Slide256(BLOCK, 3, w, 0x600003c6, 0, 0x600003c6);
    w := Slide256(BLOCK, 4, w, 0x3e9d7b78, 0, 0x3e9d7b78);
    w := Slide256(BLOCK, 5, w, 0x183fc00, 0, 0x183fc00);
    w := Slide256(BLOCK, 6, w, 0x12dcbfc3, 0, 0x12dcbfdb);
    w := Slide256(BLOCK, 7, w, 0x8180600e, 0, 0xe2e2c38e);
    w := Slide256(BLOCK, 8, w, 0xc8125c1a, 0, 0xc8215c1a);
    w := Slide256(BLOCK, 9, w, 0x398e159d, 0, 0xb73679a2);
    w := Slide256(BLOCK, 10, w, 0x85bc3543, 0, 0xe5bc3909);
    w := Slide256(BLOCK, 11, w, 0xf3c8c0e3, 0, 0x32663c5b);
    w := Slide256(BLOCK, 12, w, 0x9b9ca167, 0, 0x9d209d67);
    w := Slide256(BLOCK, 13, w, 0xd9aa66f0, 0, 0xec8726cb);
    w := Slide256(BLOCK, 14, w, 0x5d387513, 0x30060003, 0x702138a4);
    w := Slide256(BLOCK, 15, w, 0x7787aa1a, 0x940e90ef, 0xd3b7973b);
  }

  lemma Words32() returns (w: Window)
    ensures WordsAre(SHA256, BLOCK, 32, w)
    ensures w == Window(0x93f5997f, 0x3b68ba73, 0xaff4ffc1, 0xf10a5c62, 0xa8b3996, 0x72af830a, 0x9409e33e, 0x24641522,
                        0x9f47bf94, 0xf0a64f5a, 0x3e246a79, 0x27333ba3, 0xc4763f2, 0x840abf27, 0x7a290d5d, 0x65c43da)
  {
    hide WordsAre;
    w := Words16();
    w := Slide256(BLOCK, 16, w, 0xbb5abe5a, 0xc001fe03, 0x93f5997f);
    w := Slide256(BLOCK, 17, w, 0x394e7e48, 0x1c4f0322, 0x3b68ba73);
    w := Slide256(BLOCK, 18, w, 0x7fb4c6e2, 0x8031987f, 0xaff4ffc1);
    w := Slide256(BLOCK, 19, w, 0x4a7920f7, 0xa9709a3e, 0xf10a5c62);
    w := Slide256(BLOCK, 20, w, 0xe0331f3b, 0xff337818, 0xa8b3996);
    w := Slide256(BLOCK, 21, w, 0x65816433, 0x9b88ea33, 0x72af830a);
    w := Slide256(BLOCK, 22, w, 0xfbfb66da, 0xb17a254e, 0x9409e33e);
    w := Slide256(BLOCK, 23, w, 0x31f8dce2, 0x7b92db33, 0x24641522);
    w := Slide256(BLOCK, 24, w, 0xcddd9afd, 0xcde00e0a, 0x9f47bf94);
    w := Slide256(BLOCK, 25, w, 0x883c4fbb, 0x13e863c, 0xf0a64f5a);
    w := Slide256(BLOCK, 26, w, 0x281f0da4, 0x3f3ec76a, 0x3e246a79);
    w := Slide256(BLOCK, 27, w, 0xee7a0fd4, 0xfbc7b5de, 0x27333ba3);
    w := Slide256(BLOCK, 28, w, 0xb87c31cc, 0x43fb11b5, 0xc4763f2);
    w := Slide256(BLOCK, 29, w, 0xfaac3bb1, 0x8cd796d, 0x840abf27);
    w := Slide256(BLOCK, 30, w, 0x5d845673, 0x881f6924, 0x7a290d5d);
    w := Slide256(BLOCK, 31, w, 0x856302b, 0x8b06bce0, 0x65c43da);
  }

  lemma Words48() returns (w: Window)
    ensures WordsAre(SHA256, BLOCK, 48, w)
    ensures w == Window(0xfb3e89cb, 0xcc7617db, 0xb9e66c34, 0xa9993667, 0x84badedd, 0xc21462bc, 0x1487472c,
                        0xb20f7a99, 0xef57b9cd, 0xebe6b238, 0x9fe3095e, 0x78bc8d4b, 0xa43fcf15, 0x668b2ff8,
                        0xeeaba2cc, 0x12b1edeb)
  {
    hide WordsAre;
    w := Words32();
    w := Slide256(BLOCK, 32, w, 0xa71b9812, 0xcf8708e0, 0xfb3e89cb);
    w := Slide256(BLOCK, 33, w, 0xa997d4f5, 0xa9511dfa, 0xcc7617db);
    w := Slide256(BLOCK, 34, w, 0x95e24d5a, 0x4cdbe376, 0xb9e66c34);
    w := Slide256(BLOCK, 35, w, 0xc9258230, 0xe321f3e3, 0xa9993667);
    w := Slide256(BLOCK, 36, w, 0xfbb2b254, 0xfa7233cc, 0x84badedd);
    w := Slide256(BLOCK, 37, w, 0xbdd547b2, 0x17668aa3, 0xc21462bc);
    w := Slide256(BLOCK, 38, w, 0x34945c7d, 0x458cc397, 0x1487472c);
    w := Slide256(BLOCK, 39, w, 0xbd397c50, 0xd5335f5c, 0xb20f7a99);
    w := Slide256(BLOCK, 40, w, 0x4b76a902, 0x3823395c, 0xef57b9cd);
    w := Slide256(BLOCK, 41, w, 0x52336c98, 0xef268a12, 0xebe6b238);
    w := Slide256(BLOCK, 42, w, 0x2be49faf, 0x8c40c8cf, 0x9fe3095e);
    w := Slide256(BLOCK, 43, w, 0x8f619123, 0x3d6ce1a8, 0x78bc8d4b);
    w := Slide256(BLOCK, 44, w, 0xe5a364cf, 0xf040a398, 0xa43fcf15);
    w := Slide256(BLOCK, 45, w, 0xd712fc6a, 0xf6e62d3b, 0x668b2ff8);
    w := Slide256(BLOCK, 46, w, 0x1e41696b, 0xa431b16b, 0xeeaba2cc);
    w := Slide256(BLOCK, 47, w, 0xf21a9d5f, 0x2ae352e5, 0x12b1edeb);
  }

  // ---- Rounds ----

  lemma Rounds0() returns (s: Trace)
    ensures After(SHA256, BLOCK, 0, s)
    ensures s == Trace(0x6a09e667, 0xbb67ae85, 0x3c6ef372, 0xa54ff53a, 0x510e527f, 0x9b05688c, 0x1f83d9ab, 0x5be0cd19)
  {
    s := Trace(0x6a09e667, 0xbb67ae85, 0x3c6ef372, 0xa54ff53a, 0x510e527f, 0x9b05688c, 0x1f83d9ab, 0x5be0cd19);
    Tables256();
  }

  lemma Rounds4() returns (s: Trace)
    ensures s == Trace(0xd550f666, 0xc8c347a7, 0x5a6ad9ad, 0x5d6aebcd, 0x24e00850, 0xf92939eb, 0x78ce7989, 0xfa2a4622)
    ensures After(SHA256, BLOCK, 4, s)
  {
    hide After, ConstantIs, WordIs, WordsAre;
    s := Rounds0();
    var w := Words0();
    EachWord(SHA256, BLOCK, 0, w);
    Constants0();
    s := Up256(BLOCK, 0, s, 0x428a2f98, w.w0, 0xf377ed68, 0x54da50e8, 0x5d6aebcd, 0xfa2a4622);
    s := Up256(BLOCK, 1, s, 0x71374491, w.w1, 0x3c5f8617, 0x3c5f8617, 0x5a6ad9ad, 0x78ce7989);
    s := Up256(BLOCK, 2, s, 0xb5c0fbcf, w.w2, 0x3dc18b66, 0x3dc18b66, 0xc8c347a7, 0xf92939eb);
    s := Up256(BLOCK, 3, s, 0xe9b5dba5, w.w3, 0xbad621e9, 0xbad621e9, 0xd550f666, 0x24e00850);
  }

  lemma Rounds8() returns (s: Trace)
    ensures s == Trace(0x85a07b5f, 0xe5030380, 0x2b4209f5, 0x4409a6a, 0xc657a79, 0x9b27a401, 0x714260ad, 0x43ada245)
    ensures After(SHA256, BLOCK, 8, s)
  {
    hide After, ConstantIs, WordIs, WordsAre;
    s := Rounds4();
    var w := Words0();
    EachWord(SHA256, BLOCK, 0, w);
    Constants0();
    s := Up256(BLOCK, 4, s, 0x3956c25b, w.w4, 0xe642b678, 0xe642b678, 0x4409a6a, 0x43ada245);
    s := Up256(BLOCK, 5, s, 0x59f111f1, w.w5, 0x16d78700, 0x16d78700, 0x2b4209f5, 0x714260ad);
    s := Up256(BLOCK, 6, s, 0x923f82a4, w.w6, 0xd2645c5a, 0xd2645c5a, 0xe5030380, 0x9b27a401);
    s := Up256(BLOCK, 7, s, 0xab1c5ed5, w.w7, 0x37148413, 0x37148413, 0x85a07b5f, 0xc657a79);
  }

  lemma Rounds12() returns (s: Trace)
    ensures s == Trace(0xf71fc5a9, 0x4798a3f4, 0x8c87346b, 0x8e04ecb9, 0x816fd6e9, 0x436b23e8, 0x1cc92596, 0x32ca2d8c)
    ensures After(SHA256, BLOCK, 12, s)
  {
    hide After, ConstantIs, WordIs, WordsAre;
    s := Rounds8();
    var w := Words0();
    EachWord(SHA256, BLOCK, 0, w);
    Constants8();
    s := Up256(BLOCK, 8, s, 0xd807aa98, w.w8, 0x2e899322, 0x2e899322, 0x8e04ecb9, 0x32ca2d8c);
    s := Up256(BLOCK, 9, s, 0x12835b01, w.w9, 0xf1871ba1, 0xf1871ba1, 0x8c87346b, 0x1cc92596);
    s := Up256(BLOCK, 10, s, 0x243185be, w.w10, 0x5e682068, 0x5e682068, 0x4798a3f4, 0x436b23e8);
    s := Up256(BLOCK, 11, s, 0x550c7dc3, w.w11, 0xfbcf5b8a, 0xfbcf5b8a, 0xf71fc5a9, 0x816fd6e9);
  }

  lemma Rounds16() returns (s: Trace)
    ensures s == Trace(0xb0fa238e, 0xc0645fde, 0xd932eb16, 0x87912990, 0x7590dcd, 0xb92f20c, 0x745a48de, 0x1e578218)
    ensures After(SHA256, BLOCK, 16, s)
  {
    hide After, ConstantIs, WordIs, WordsAre;
    s := Rounds12();
    var w := Words0();
    EachWord(SHA256, BLOCK, 0, w);
    Constants8();
    s := Up256(BLOCK, 12, s, 0x72be5d74, w.w12, 0x9052955f, 0x9052955f, 0x87912990, 0x1e578218);
    s := Up256(BLOCK, 13, s, 0x80deb1fe, w.w13, 0xe7d31473, 0xe7d31473, 0xd932eb16, 0x745a48de);
    s := Up256(BLOCK, 14, s, 0x9bdc06a7, w.w14, 0xc3fa4e18, 0xc3fa4e18, 0xc0645fde, 0xb92f20c);
    s := Up256(BLOCK, 15, s, 0xc19bf174, w.w15, 0x1039480c, 0x10394824, 0xb0fa238e, 0x7590dcd);
  }

  lemma Rounds24() returns (s: Trace)
    ensures s == Trace(0xc5d53d8d, 0xa7a3623f, 0xc2606d6d, 0x9dc68b63, 0xaa47c347, 0x49f5114a, 0xe1257970, 0x8ada8930)
    ensures After(SHA256, BLOCK, 24, s)
  {
    hide After, ConstantIs, WordIs, WordsAre;
    s := Rounds16();
    var w := Words16();
    EachWord(SHA256, BLOCK, 16, w);
    Constants16();
    s := Up256(BLOCK, 16, s, 0xe49b69c1, w.w0, 0x9740958c, 0xf8a2f90c, 0x21da9a9b, 0x8034229c);
    s := Up256(BLOCK, 17, s, 0xefbe4786, w.w1, 0xab2cf93e, 0xab3bf93e, 0xc2fbd9d1, 0x846ee454);
    s := Up256(BLOCK, 18, s, 0xfc19dc6, w.w2, 0x8e7cd57e, 0xc253983, 0xfe777bbf, 0xcc899961);
    s := Up256(BLOCK, 19, s, 0x240ca1cc, w.w3, 0x9f695a25, 0xff695deb, 0xe1f20c33, 0xb0638179);
    s := Up256(BLOCK, 20, s, 0x2de92c6f, w.w4, 0x2a62731d, 0x68ffee95, 0x9dc68b63, 0x8ada8930);
    s := Up256(BLOCK, 21, s, 0x4a7484aa, w.w5, 0x1ca5a39f, 0x1e299f9f, 0xc2606d6d, 0xe1257970);
    s := Up256(BLOCK, 22, s, 0x5cb0a9dc, w.w6, 0x38a0d5b0, 0x4b7d958b, 0xa7a3623f, 0x49f5114a);
    s := Up256(BLOCK, 23, s, 0x76f988da, w.w7, 0xe572f386, 0xc855b714, 0xc5d53d8d, 0xaa47c347);
  }

  lemma Rounds32() returns (s: Trace)
    ensures s == Trace(0x73b33bf5, 0xea992a22, 0xa0060b30, 0x363482c9, 0xba591112, 0x109ab3a, 0xade79437, 0x6112a3b7)
    ensures After(SHA256, BLOCK, 32, s)
  {
    hide After, ConstantIs, WordIs, WordsAre;
    s := Rounds24();
    var w := Words16();
    EachWord(SHA256, BLOCK, 16, w);
    Constants24();
    s := Up256(BLOCK, 24, s, 0x983e5152, w.w8, 0xc23c0814, 0x8a5d642e, 0x1c2c2838, 0x2823ef91);
    s := Up256(BLOCK, 25, s, 0xa831c66d, w.w9, 0x9aa1567f, 0x51d7d021, 0xcde8037d, 0x14383d8e);
    s := Up256(BLOCK, 26, s, 0xb00327c8, w.w10, 0x39ecc9ce, 0x1fa902d7, 0xb62ec4bc, 0xc74c6516);
    s := Up256(BLOCK, 27, s, 0xbf597fc7, w.w11, 0xf5c44610, 0x282a826b, 0x77d37528, 0xedffbff8);
    s := Up256(BLOCK, 28, s, 0xc6e00bf3, w.w12, 0xa7c5de18, 0x44e67b7f, 0x363482c9, 0x6112a3b7);
    s := Up256(BLOCK, 29, s, 0xd5a79147, w.w13, 0xf37869ef, 0xdfff90ba, 0xa0060b30, 0xade79437);
    s := Up256(BLOCK, 30, s, 0x6ca6351, w.w14, 0xdab9adda, 0x4adae67e, 0xea992a22, 0x109ab3a);
    s := Up256(BLOCK, 31, s, 0x14292967, w.w15, 0x6ece04af, 0x42859bea, 0x73b33bf5, 0xba591112);
  }

  lemma Rounds40() returns (s: Trace)
    ensures s == Trace(0x79ea687a, 0x6dc57a8a, 0x34df1604, 0x41a65cb1, 0x1efbc0a0, 0xf0781bc8, 0xa507a53d, 0x772a26b)
    ensures After(SHA256, BLOCK, 40, s)
  {
    hide After, ConstantIs, WordIs, WordsAre;
    s := Rounds32();
    var w := Words32();
    EachWord(SHA256, BLOCK, 32, w);
    Constants32();
    s := Up256(BLOCK, 32, s, 0x27b70a85, w.w0, 0xd2afd9ae, 0x66a5732d, 0x98e12507, 0x9cd9f5f6);
    s := Up256(BLOCK, 33, s, 0x2e1b2138, w.w1, 0x7db5d830, 0xb91e92a3, 0xfe604df5, 0x59249dd3);
    s := Up256(BLOCK, 34, s, 0x4d2c6dfc, w.w2, 0x6dd10e50, 0x1dc60e11, 0xa9a7738c, 0x85f3833);
    s := Up256(BLOCK, 35, s, 0x53380d13, w.w3, 0x8ff26a7f, 0x80fcc6e1, 0x65a0cfe4, 0xf4b002d6);
    s := Up256(BLOCK, 36, s, 0x650a7354, w.w4, 0x640643ce, 0x6e917d64, 0x41a65cb1, 0x772a26b);
    s := Up256(BLOCK, 37, s, 0x766a0abb, w.w5, 0x33f7d43e, 0xa6a75748, 0x34df1604, 0xa507a53d);
    s := Up256(BLOCK, 38, s, 0x81c2c92e, w.w6, 0xb2c6c4fe, 0x46d0a83c, 0x6dc57a8a, 0xf0781bc8);
    s := Up256(BLOCK, 39, s, 0x92722c85, w.w7, 0x94f6db9a, 0xb95af0bc, 0x79ea687a, 0x1efbc0a0);
  }

  lemma Rounds48() returns (s: Trace)
    ensures s == Trace(0x4172328d, 0xa14c14b0, 0x72ab4b91, 0x26628815, 0xfecf0bc6, 0xd57b94a9, 0xb7755da1, 0xa80f11f0)
    ensures After(SHA256, BLOCK, 48, s)
  {
    hide After, ConstantIs, WordIs, WordsAre;
    s := Rounds40();
    var w := Words32();
    EachWord(SHA256, BLOCK, 32, w);
    Constants40();
    s := Up256(BLOCK, 40, s, 0xa2bfe8a1, w.w8, 0x4547111e, 0xe48ed0b2, 0xd6670766, 0x26352d63);
    s := Up256(BLOCK, 41, s, 0xa81a664b, w.w9, 0x5e05c1b3, 0x4eac110d, 0xdf46652f, 0x838b2711);
    s := Up256(BLOCK, 42, s, 0xc24b8b70, w.w10, 0x32e36212, 0x7107cc8b, 0x17aa0dfe, 0xdecd4715);
    s := Up256(BLOCK, 43, s, 0xc76c51a3, w.w11, 0x5c84a811, 0x83b7e3b4, 0x9d4baf93, 0xfda24c2e);
    s := Up256(BLOCK, 44, s, 0xd192e819, w.w12, 0xc560a698, 0xd1a80a8a, 0x26628815, 0xa80f11f0);
    s := Up256(BLOCK, 45, s, 0xd6990624, w.w13, 0x5424394b, 0xd82ef872, 0x72ab4b91, 0xb7755da1);
    s := Up256(BLOCK, 46, s, 0xf40e3585, w.w14, 0x43a8794e, 0xbdd186ab, 0xa14c14b0, 0xd57b94a9);
    s := Up256(BLOCK, 47, s, 0x106aa070, w.w15, 0x5b271859, 0x61835c33, 0x4172328d, 0xfecf0bc6);
  }

  lemma Rounds56() returns (s: Trace)
    ensures s == Trace(0x38cc9913, 0x3ec45cdb, 0xf5702fdb, 0x101fd28f, 0x54cb266b, 0xe50e1b4f, 0x9f4787c3, 0x529e7d00)
    ensures After(SHA256, BLOCK, 56, s)
  {
    hide After, ConstantIs, WordIs, WordsAre;
    s := Rounds48();
    var w := Words48();
    EachWord(SHA256, BLOCK, 48, w);
    Constants48();
    s := Up256(BLOCK, 48, s, 0x19a4c116, w.w0, 0x9bd02e58, 0x970eb823, 0x5757ceb, 0xbd714038);
    s := Up256(BLOCK, 49, s, 0x1e376c08, w.w1, 0x2f3ad5a0, 0xfbb0ed7b, 0xf11bfaa8, 0x6e5c390c);
    s := Up256(BLOCK, 50, s, 0x2748774c, w.w2, 0xf7bf4c13, 0xb1a5b847, 0x7a0508a1, 0x52f1ccf7);
    s := Up256(BLOCK, 51, s, 0x34b0bcb5, w.w3, 0x5e17b32a, 0x7b0e991, 0x886e7a22, 0x49231c1e);
    s := Up256(BLOCK, 52, s, 0x391c0cb3, w.w4, 0xc86e2138, 0x4d290015, 0x101fd28f, 0x529e7d00);
    s := Up256(BLOCK, 53, s, 0x4ed8aa4a, w.w5, 0xec172a5f, 0xae2b8d1b, 0xf5702fdb, 0x9f4787c3);
    s := Up256(BLOCK, 54, s, 0x5b9cca4f, w.w6, 0x5681cb82, 0x6b0912ae, 0x3ec45cdb, 0xe50e1b4f);
    s := Up256(BLOCK, 55, s, 0x682e6ff3, w.w7, 0x1a4d31b0, 0xcc5cac49, 0x38cc9913, 0x54cb266b);
  }

  lemma Rounds64() returns (s: Trace)
    ensures s == Trace(0x506e3058, 0xd39a2165, 0x4d24d6c, 0xb85e2ce9, 0x5ef50f24, 0xfb121210, 0x948d25b6, 0x961f4894)
    ensures After(SHA256, BLOCK, 64, s)
  {
    hide After, ConstantIs, WordIs, WordsAre;
    s := Rounds56();
    var w := Words48();
    EachWord(SHA256, BLOCK, 48, w);
    Constants56();
    s := Up256(BLOCK, 56, s, 0x748f82ee, w.w8, 0x9be70410, 0x8b3ebddd, 0xfcd1887b, 0x9b5e906c);
    s := Up256(BLOCK, 57, s, 0x78a5636f, w.w9, 0x9ced1e7b, 0x88d3d0b3, 0xc062d46f, 0x7e44008e);
    s := Up256(BLOCK, 58, s, 0x84c87814, w.w10, 0x8edc598d, 0x2ebf62eb, 0xffb70472, 0x6d83bfc6);
    s := Up256(BLOCK, 59, s, 0x8cc70208, w.w11, 0x9286df, 0x794f142a, 0xb6ae8fff, 0xb21bad3d);
    s := Up256(BLOCK, 60, s, 0x90befffa, w.w12, 0xf50df104, 0x994dc019, 0xb85e2ce9, 0x961f4894);
    s := Up256(BLOCK, 61, s, 0xa4506ceb, w.w13, 0x6d9f214f, 0xd42a5147, 0x4d24d6c, 0x948d25b6);
    s := Up256(BLOCK, 62, s, 0xbef9a3f7, w.w14, 0xcaf6ad2, 0xfb5b0d9e, 0xd39a2165, 0xfb121210);
    s := Up256(BLOCK, 63, s, 0xc67178f2, w.w15, 0x9594913a, 0xa8467f25, 0x506e3058, 0x5ef50f24);
  }

  // ---- Digest ----

  const DIGEST: seq<bool> := ToBits(32, 0xba7816bf) + ToBits(32, 0x8f01cfea) + ToBits(32, 0x414140de) +
                             ToBits(32, 0x5dae2223) + ToBits(32, 0xb00361a3) + ToBits(32, 0x96177a9c) +
                             ToBits(32, 0xb410ff61) + ToBits(32, 0xf20015ad)

  lemma BlockOfAbc()
    ensures Words(32, Padding(SHA256, ABC)) == BLOCK && |Padding(SHA256, ABC)| == SHA256.BlockBits()
  {
    hide Words, Padding, FirstWord;
    PaddedAbc(SHA256);
    FirstWordOfAbc(32);
  }

  lemma FinalSums(h: Trace, s: Trace)
    requires h == Trace(0x6a09e667, 0xbb67ae85, 0x3c6ef372, 0xa54ff53a, 0x510e527f, 0x9b05688c, 0x1f83d9ab,
                        0x5be0cd19)
    requires s == Trace(0x506e3058, 0xd39a2165, 0x4d24d6c, 0xb85e2ce9, 0x5ef50f24, 0xfb121210, 0x948d25b6, 0x961f4894)
    ensures Summed256(h, s) == Trace(0xba7816bf, 0x8f01cfea, 0x414140de, 0x5dae2223, 0xb00361a3, 0x96177a9c,
                                     0xb410ff61, 0xf20015ad)
  {
  }

  lemma InitialValue(h: Trace)
    requires h == Trace(0x6a09e667, 0xbb67ae85, 0x3c6ef372, 0xa54ff53a, 0x510e527f, 0x9b05688c, 0x1f83d9ab,
                        0x5be0cd19)
    ensures SHA256.h == Numbers(h) && AreWords(32, h)
  {
  }

  /** The hash value after the block. */
  lemma FinalState(s: Trace)
    requires s == Trace(0x506e3058, 0xd39a2165, 0x4d24d6c, 0xb85e2ce9, 0x5ef50f24, 0xfb121210, 0x948d25b6, 0x961f4894)
    requires AreWords(32, s)
    ensures AddStates(SHA256, SHA256.h, Numbers(s)) == Numbers(Trace(0xba7816bf, 0x8f01cfea, 0x414140de, 0x5dae2223,
                                                                     0xb00361a3, 0x96177a9c, 0xb410ff61, 0xf20015ad))
  {
    var h := Trace(0x6a09e667, 0xbb67ae85, 0x3c6ef372, 0xa54ff53a, 0x510e527f, 0x9b05688c, 0x1f83d9ab, 0x5be0cd19);
    hide Numbers, Summed256, AddStates, IsWord;
    InitialValue(h);
    SummedNumbers256(h, s);
    FinalSums(h, s);
  }

  lemma DigestBits()
    ensures StateBits(SHA256, Numbers(Trace(0xba7816bf, 0x8f01cfea, 0x414140de, 0x5dae2223,
                                          0xb00361a3, 0x96177a9c, 0xb410ff61, 0xf20015ad)))
         == DIGEST
  {
    hide ToBits;
  }

  /** The digest of "abc". */
  lemma DigestOfAbc()
    ensures Digest(SHA256, ABC) == DIGEST
  {
    hide After, Words, Padding, StateBits, AddStates, Digest, ABC, ToBits, Numbers, AreWords;
    var s := Rounds64();
    BlockOfAbc();
    Tables256();
    ReachedWords(SHA256, BLOCK, 64, s);
    DigestOfBlock(SHA256, BLOCK, s);
    FinalState(s);
    DigestBits();
  }

  /** Wherever a circuit is satisfied with "abc" on the message wires, the digest wires carry its digest. */
  lemma AbcOnWires(gates: seq<Gate>, inputs: seq<Wire>, message: seq<Wire>, digest: seq<Wire>, w: Assignment, i: nat)
    requires ComputesDigest(SHA256, gates, inputs, message, digest) && Satisfies(w, gates, inputs)
    requires |message| == 24 && forall j :: 0 <= j < 24 ==> w(message[j]) == if ABC[j] then 1 else 0
    ensures |digest| == 256
    ensures i < 256 ==> w(digest[i]) == if DIGEST[i] then 1 else 0
  {
    DigestOfAbc();
    DigestSize();
    hide Digest, DIGEST, Satisfies;
    assert BitValues(w, message) == ABC;
    if i < |digest| {
      CarryAt(w, digest, DIGEST, i);
    }
  }

  lemma DigestSize()
    ensures |DIGEST| == 256
  {
    hide ToBits;
  }
}
