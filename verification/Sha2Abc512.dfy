// The hash computation of SHA-512 for the message "abc", round by round.
module Sha2Abc512 {
  import opened BitStrings
  import opened Circuit
  import opened CircuitBits
  import opened Sha2
  import opened Sha2Abc
  import opened Sha2Circuit
  import opened Sha2Gadgets
  import opened Sha2Traces
  import opened Sha2Variants
  import opened Sha2Words

  /** The padded message. */
  const BLOCK: seq<nat> := [0x6162638000000000, 0, 0, 0, 0, 0, 0, 0, 0, 0, 0, 0, 0, 0, 0, 24]

  lemma Constants0()
    ensures ConstantIs(SHA512, 0, 0x428a2f98d728ae22) && ConstantIs(SHA512, 1, 0x7137449123ef65cd)
    ensures ConstantIs(SHA512, 2, 0xb5c0fbcfec4d3b2f) && ConstantIs(SHA512, 3, 0xe9b5dba58189dbbc)
    ensures ConstantIs(SHA512, 4, 0x3956c25bf348b538) && ConstantIs(SHA512, 5, 0x59f111f1b605d019)
    ensures ConstantIs(SHA512, 6, 0x923f82a4af194f9b) && ConstantIs(SHA512, 7, 0xab1c5ed5da6d8118)
  {
  }

  lemma Constants8()
    ensures ConstantIs(SHA512, 8, 0xd807aa98a3030242) && ConstantIs(SHA512, 9, 0x12835b0145706fbe)
    ensures ConstantIs(SHA512, 10, 0x243185be4ee4b28c) && ConstantIs(SHA512, 11, 0x550c7dc3d5ffb4e2)
    ensures ConstantIs(SHA512, 12, 0x72be5d74f27b896f) && ConstantIs(SHA512, 13, 0x80deb1fe3b1696b1)
    ensures ConstantIs(SHA512, 14, 0x9bdc06a725c71235) && ConstantIs(SHA512, 15, 0xc19bf174cf692694)
  {
  }

  lemma Constants16()
    ensures ConstantIs(SHA512, 16, 0xe49b69c19ef14ad2) && ConstantIs(SHA512, 17, 0xefbe4786384f25e3)
    ensures ConstantIs(SHA512, 18, 0xfc19dc68b8cd5b5) && ConstantIs(SHA512, 19, 0x240ca1cc77ac9c65)
    ensures ConstantIs(SHA512, 20, 0x2de92c6f592b0275) && ConstantIs(SHA512, 21, 0x4a7484aa6ea6e483)
    ensures ConstantIs(SHA512, 22, 0x5cb0a9dcbd41fbd4) && ConstantIs(SHA512, 23, 0x76f988da831153b5)
  {
  }

  lemma Constants24()
    ensures ConstantIs(SHA512, 24, 0x983e5152ee66dfab) && ConstantIs(SHA512, 25, 0xa831c66d2db43210)
    ensures ConstantIs(SHA512, 26, 0xb00327c898fb213f) && ConstantIs(SHA512, 27, 0xbf597fc7beef0ee4)
    ensures ConstantIs(SHA512, 28, 0xc6e00bf33da88fc2) && ConstantIs(SHA512, 29, 0xd5a79147930aa725)
    ensures ConstantIs(SHA512, 30, 0x6ca6351e003826f) && ConstantIs(SHA512, 31, 0x142929670a0e6e70)
  {
  }

  lemma Constants32()
    ensures ConstantIs(SHA512, 32, 0x27b70a8546d22ffc) && ConstantIs(SHA512, 33, 0x2e1b21385c26c926)
    ensures ConstantIs(SHA512, 34, 0x4d2c6dfc5ac42aed) && ConstantIs(SHA512, 35, 0x53380d139d95b3df)
    ensures ConstantIs(SHA512, 36, 0x650a73548baf63de) && ConstantIs(SHA512, 37, 0x766a0abb3c77b2a8)
    ensures ConstantIs(SHA512, 38, 0x81c2c92e47edaee6) && ConstantIs(SHA512, 39, 0x92722c851482353b)
  {
  }

  lemma Constants40()
    ensures ConstantIs(SHA512, 40, 0xa2bfe8a14cf10364) && ConstantIs(SHA512, 41, 0xa81a664bbc423001)
    ensures ConstantIs(SHA512, 42, 0xc24b8b70d0f89791) && ConstantIs(SHA512, 43, 0xc76c51a30654be30)
    ensures ConstantIs(SHA512, 44, 0xd192e819d6ef5218) && ConstantIs(SHA512, 45, 0xd69906245565a910)
    ensures ConstantIs(SHA512, 46, 0xf40e35855771202a) && ConstantIs(SHA512, 47, 0x106aa07032bbd1b8)
  {
  }

  lemma Constants48()
    ensures ConstantIs(SHA512, 48, 0x19a4c116b8d2d0c8) && ConstantIs(SHA512, 49, 0x1e376c085141ab53)
    ensures ConstantIs(SHA512, 50, 0x2748774cdf8eeb99) && ConstantIs(SHA512, 51, 0x34b0bcb5e19b48a8)
    ensures ConstantIs(SHA512, 52, 0x391c0cb3c5c95a63) && ConstantIs(SHA512, 53, 0x4ed8aa4ae3418acb)
    ensures ConstantIs(SHA512, 54, 0x5b9cca4f7763e373) && ConstantIs(SHA512, 55, 0x682e6ff3d6b2b8a3)
  {
  }

  lemma Constants56()
    ensures ConstantIs(SHA512, 56, 0x748f82ee5defb2fc) && ConstantIs(SHA512, 57, 0x78a5636f43172f60)
    ensures ConstantIs(SHA512, 58, 0x84c87814a1f0ab72) && ConstantIs(SHA512, 59, 0x8cc702081a6439ec)
    ensures ConstantIs(SHA512, 60, 0x90befffa23631e28) && ConstantIs(SHA512, 61, 0xa4506cebde82bde9)
    ensures ConstantIs(SHA512, 62, 0xbef9a3f7b2c67915) && ConstantIs(SHA512, 63, 0xc67178f2e372532b)
  {
  }

  lemma Constants64()
    ensures ConstantIs(SHA512, 64, 0xca273eceea26619c) && ConstantIs(SHA512, 65, 0xd186b8c721c0c207)
    ensures ConstantIs(SHA512, 66, 0xeada7dd6cde0eb1e) && ConstantIs(SHA512, 67, 0xf57d4f7fee6ed178)
    ensures ConstantIs(SHA512, 68, 0x6f067aa72176fba) && ConstantIs(SHA512, 69, 0xa637dc5a2c898a6)
    ensures ConstantIs(SHA512, 70, 0x113f9804bef90dae) && ConstantIs(SHA512, 71, 0x1b710b35131c471b)
  {
  }

  lemma Constants72()
    ensures ConstantIs(SHA512, 72, 0x28db77f523047d84) && ConstantIs(SHA512, 73, 0x32caab7b40c72493)
    ensures ConstantIs(SHA512, 74, 0x3c9ebe0a15c9bebc) && ConstantIs(SHA512, 75, 0x431d67c49c100d4c)
    ensures ConstantIs(SHA512, 76, 0x4cc5d4becb3e42b6) && ConstantIs(SHA512, 77, 0x597f299cfc657e2a)
    ensures ConstantIs(SHA512, 78, 0x5fcb6fab3ad6faec) && ConstantIs(SHA512, 79, 0x6c44198c4a475817)
  {
  }

  // ---- Message schedule ----

  lemma Words0() returns (w: Window)
    ensures WordsAre(SHA512, BLOCK, 0, w)
    ensures w == Window(0x6162638000000000, 0, 0, 0, 0, 0, 0, 0, 0, 0, 0, 0, 0, 0, 0, 0x18)
  {
    w := Window(0x6162638000000000, 0, 0, 0, 0, 0, 0, 0, 0, 0, 0, 0, 0, 0, 0, 0x18);
    FirstWords();
    hide WordIs;
  }

  lemma FirstWords()
    ensures WordIs(SHA512, BLOCK, 0, 0x6162638000000000) && WordIs(SHA512, BLOCK, 1, 0)
    ensures WordIs(SHA512, BLOCK, 2, 0) && WordIs(SHA512, BLOCK, 3, 0)
    ensures WordIs(SHA512, BLOCK, 4, 0) && WordIs(SHA512, BLOCK, 5, 0)
    ensures WordIs(SHA512, BLOCK, 6, 0) && WordIs(SHA512, BLOCK, 7, 0)
    ensures WordIs(SHA512, BLOCK, 8, 0) && WordIs(SHA512, BLOCK, 9, 0)
    ensures WordIs(SHA512, BLOCK, 10, 0) && WordIs(SHA512, BLOCK, 11, 0)
    ensures WordIs(SHA512, BLOCK, 12, 0) && WordIs(SHA512, BLOCK, 13, 0)
    ensures WordIs(SHA512, BLOCK, 14, 0) && WordIs(SHA512, BLOCK, 15, 0x18)
  {
  }

  lemma Words16() returns (w: Window)
    ensures WordsAre(SHA512, BLOCK, 16, w)
    ensures w == Window(0x6162638000000000, 0x30000000000c0, 0xa9699a24c700003, 0xc0060000603, 0x549ef62639858996,
                        0xc0003300003c00, 0x1497007a8a0e9dbc, 0x62e56500cc0780f0, 0x7760dd475a538797,
                        0xf1554b711c1c0003, 0xca2993a4345d9ff2, 0x5e0e66b5c783dd32, 0xe25a625d00494b62,
                        0x9f44486fb1e4fbd2, 0xb31b8c2b06085f2f, 0xe987660934142f6)
  {
    hide WordsAre;
    w := Words0();
    w := Slide512(BLOCK, 0, w, 0, 0, 0x6162638000000000);
    w := Slide512(BLOCK, 1, w, 0x30000000000c0, 0, 0x30000000000c0);
    w := Slide512(BLOCK, 2, w, 0xa9699a24c700003, 0, 0xa9699a24c700003);
    w := Slide512(BLOCK, 3, w, 0xc0060000603, 0, 0xc0060000603);
    w := Slide512(BLOCK, 4, w, 0x549ef62639858996, 0, 0x549ef62639858996);
    w := Slide512(BLOCK, 5, w, 0xc0003300003c00, 0, 0xc0003300003c00);
    w := Slide512(BLOCK, 6, w, 0x1497007a8a0e9da4, 0, 0x1497007a8a0e9dbc);
    w := Slide512(BLOCK, 7, w, 0x1830180cc0780f0, 0, 0x62e56500cc0780f0);
    w := Slide512(BLOCK, 8, w, 0x775ddd475a5386d7, 0, 0x7760dd475a538797);
    w := Slide512(BLOCK, 9, w, 0xe6beb1cecfac0000, 0, 0xf1554b711c1c0003);
    w := Slide512(BLOCK, 10, w, 0xca2987a3d45d99ef, 0, 0xca2993a4345d9ff2);
    w := Slide512(BLOCK, 11, w, 0x96f708f8dfe539c, 0, 0x5e0e66b5c783dd32);
    w := Slide512(BLOCK, 12, w, 0xe19a622a00490f62, 0, 0xe25a625d00494b62);
    w := Slide512(BLOCK, 13, w, 0x8aad47f527d65e16, 0, 0x9f44486fb1e4fbd2);
    w := Slide512(BLOCK, 14, w, 0x3836272a3a00de33, 0x180000000000000c, 0xb31b8c2b06085f2f);
    w := Slide512(BLOCK, 15, w, 0x672501b4b8edbb47, 0x3012976480000000, 0xe987660934142f6);
  }

  lemma Words32() returns (w: Window)
    ensures WordsAre(SHA512, BLOCK, 32, w)
    ensures w == Window(0xa4af2cfd09fbb924, 0xad289e2e0bd53186, 0x3c74563aa2f9673e, 0x6ccdcd14cc14b53f,
                        0xc3f925b337f22bde, 0x5bcc77a75ad95b54, 0x3ec2257adca09a52, 0x28246960001fc5eb,
                        0x4e33a75ce2be88a, 0x7d5314b3c359e0e7, 0xaef7a285ff251266, 0xb8472581deea04f,
                        0xb174e26eddc7b033, 0x5d63bae58ddd88de, 0x4c044007b744ccbb, 0xe6a9aa4d74dc7d43)
  {
    hide WordsAre;
    w := Words16();
    w := Slide512(BLOCK, 16, w, 0x91f5f90beddfb8c0, 0xc001850000000061, 0xa4af2cfd09fbb924);
    w := Slide512(BLOCK, 17, w, 0x5ca7130e168b00d3, 0x8654f77bc0ec9001, 0xad289e2e0bd53186);
    w := Slide512(BLOCK, 18, w, 0x50cf4fce5e6586fe, 0x8300061430a0030b, 0x3c74563aa2f9673e);
    w := Slide512(BLOCK, 19, w, 0xcdc086adf5431989, 0xbcb2d80976884a51, 0x6ccdcd14cc14b53f);
    w := Slide512(BLOCK, 20, w, 0xcfb4a70377878832, 0x614019d5001e44, 0xc3f925b337f22bde);
    w := Slide512(BLOCK, 21, w, 0xf17ab20b8a3762ad, 0xb676393dca995d78, 0x5bcc77a75ad95b54);
    w := Slide512(BLOCK, 22, w, 0x59bd117057f8f0a7, 0xc1d59d2f6757c8f9, 0x3ec2257adca09a52);
    w := Slide512(BLOCK, 23, w, 0xf466079dc5555494, 0x2c29cfc464c73743, 0x28246960001fc5eb);
    w := Slide512(BLOCK, 24, w, 0xe5a0649b4ad90b6c, 0xfab95a651d2a2401, 0x4e33a75ce2be88a);
    w := Slide512(BLOCK, 25, w, 0xb93ebfa10dd2504d, 0x964ab366f6722959, 0x7d5314b3c359e0e7);
    w := Slide512(BLOCK, 26, w, 0x5a1b1fdbc1295237, 0x1de521f13d896afe, 0xaef7a285ff251266);
    w := Slide512(BLOCK, 27, w, 0xd7710666b75418d3, 0x120bdf8867247e6c, 0xb8472581deea04f);
    w := Slide512(BLOCK, 28, w, 0xd74a1f7b1a84b898, 0x9c03e8ef682050e5, 0xb174e26eddc7b033);
    w := Slide512(BLOCK, 29, w, 0x880462790149bb44, 0xf758ea81fe0e3776, 0x5d63bae58ddd88de);
    w := Slide512(BLOCK, 30, w, 0x7f64b6d1c90744e5, 0xf15f93aae81562bc, 0x4c044007b744ccbb);
    w := Slide512(BLOCK, 31, w, 0x5b73926b8f87816a, 0x77ba670b83e7d059, 0xe6a9aa4d74dc7d43);
  }

  lemma Words48() returns (w: Window)
    ensures WordsAre(SHA512, BLOCK, 48, w)
    ensures w == Window(0xebeaf1237248019c, 0x361e80b2d00f3193, 0x2e9839125df3b175, 0x3319629293ad5363,
                        0x9cbc5d89ac1b89d5, 0x275e23ffeeca50b7, 0x3b80d680bf69ef58, 0xd0696933945a125,
                        0x7533eabcb786ff00, 0xb89826cee6fbf0e5, 0x249b4fbcad623e9f, 0x4aea9df2b02d6f1e,
                        0x2cc57475a55e8d8f, 0xb2574ae938d8be89, 0xc1b35a57b16d6aea, 0xcc4918b5949206bb)
  {
    hide WordsAre;
    w := Words32();
    w := Slide512(BLOCK, 32, w, 0xf88578bd2cfb8000, 0xd16336b577f6e791, 0xebeaf1237248019c);
    w := Slide512(BLOCK, 33, w, 0xb97f8817a6793571, 0x207eb7e71e9bb836, 0x361e80b2d00f3193);
    w := Slide512(BLOCK, 34, w, 0x5ccbbfa241ad42a8, 0x89d3b0dd5b5e6740, 0x2e9839125df3b175);
    w := Slide512(BLOCK, 35, w, 0x561e19579b2fea5e, 0xbeb899b74ea10393, 0x3319629293ad5363);
    w := Slide512(BLOCK, 36, w, 0x2550da5a1c80ed2, 0x790a6f4b4483c647, 0x9cbc5d89ac1b89d5);
    w := Slide512(BLOCK, 37, w, 0x326b177dfb767c21, 0x4d2254d2e135ac87, 0x275e23ffeeca50b7);
    w := Slide512(BLOCK, 38, w, 0x96aaaeaccddd1508, 0x7f6a580ba00fc2bb, 0x3b80d680bf69ef58);
    w := Slide512(BLOCK, 39, w, 0x707a839b4d965122, 0x887cb8747947887c, 0xd0696933945a125);
    w := Slide512(BLOCK, 40, w, 0xe103b02fe362ca91, 0x592e7f6435e91a52, 0x7533eabcb786ff00);
    w := Slide512(BLOCK, 41, w, 0xdc240f63541a7884, 0x3088c9a57193e605, 0xb89826cee6fbf0e5);
    w := Slide512(BLOCK, 42, w, 0x77ab94e933be750f, 0xcadeb5bae6d163c7, 0x249b4fbcad623e9f);
    w := Slide512(BLOCK, 43, w, 0xb83fe1ff089db431, 0xea69ec11dd8590c9, 0x4aea9df2b02d6f1e);
    w := Slide512(BLOCK, 44, w, 0x639bf448f053e9af, 0xf05679bde878a2f6, 0x2cc57475a55e8d8f);
    w := Slide512(BLOCK, 45, w, 0xfb9c8cbf18159b4b, 0x1dd62cc3d37bab08, 0xb2574ae938d8be89);
    w := Slide512(BLOCK, 46, w, 0xb72953e452efa2e4, 0xb17f2fd86df35a26, 0xc1b35a57b16d6aea);
    w := Slide512(BLOCK, 47, w, 0x87a23c288b7bb1ac, 0xe8c94782dcb2d8cc, 0xcc4918b5949206bb);
  }

  lemma Words64() returns (w: Window)
    ensures WordsAre(SHA512, BLOCK, 64, w)
    ensures w == Window(0x5099c3add79f90ec, 0x5ea81d78e7660bf1, 0xebee6267405ac2a9, 0xb01f21926108a4ab,
                        0x786433dd2fe65556, 0xc54a6eaa24a0552c, 0xb3c8f1530bdbaa9e, 0xbb8abfe56f469338,
                        0xf63d4265cc1c5a78, 0xbe8355ea73129afb, 0x49e2db8ebdcfbeb5, 0x82269d4a883a3d99,
                        0xfdf53df3011f362b, 0x464af5671d71c12e, 0xe449b68198ec611c, 0x92aeeed1a7bcf7d2)
  {
    hide WordsAre;
    w := Words48();
    w := Slide512(BLOCK, 48, w, 0xa3c147e2bee414d0, 0x85563d8bf77899b, 0x5099c3add79f90ec);
    w := Slide512(BLOCK, 49, w, 0x21ae984751d4cf56, 0xe23fb4c2181fcc69, 0x5ea81d78e7660bf1);
    w := Slide512(BLOCK, 50, w, 0x7791f07333d743d2, 0xfad99aeefe625e44, 0xebee6267405ac2a9);
    w := Slide512(BLOCK, 51, w, 0x35446067db02db49, 0x1afbea224cf9e870, 0xb01f21926108a4ab);
    w := Slide512(BLOCK, 52, w, 0x48997ce539b964e, 0x24c6f39bf75676aa, 0x786433dd2fe65556);
    w := Slide512(BLOCK, 53, w, 0x96ac0616a5f34bee, 0x458cea3bde754d9d, 0xc54a6eaa24a0552c);
    w := Slide512(BLOCK, 54, w, 0x86ac12a8df6961a, 0xa39440f229e91e71, 0xb3c8f1530bdbaa9e);
    w := Slide512(BLOCK, 55, w, 0x23e3c442c0456ca6, 0x3a06a1619e1bf481, 0xbb8abfe56f469338);
    w := Slide512(BLOCK, 56, w, 0xe9db7f240cd85b24, 0x3885bb0c2056f463, 0xf63d4265cc1c5a78);
    w := Slide512(BLOCK, 57, w, 0xcdcc2a5b8752e61, 0xd200a0e9346b90c, 0xbe8355ea73129afb);
    w := Slide512(BLOCK, 58, w, 0x397df8e05f9e1b2d, 0x3baa715f4fc6c03e, 0x49e2db8ebdcfbeb5);
    w := Slide512(BLOCK, 59, w, 0xa5bfd5d45be5d3d4, 0x1917f5a64c40a551, 0x82269d4a883a3d99);
    w := Slide512(BLOCK, 60, w, 0xb9e7fe278ffb1ce9, 0x51fd5caba7253687, 0xfdf53df3011f362b);
    w := Slide512(BLOCK, 61, w, 0x548f4065b858553d, 0x8b9b78c5206502ca, 0x464af5671d71c12e);
    w := Slide512(BLOCK, 62, w, 0xa9b44d16343ada4, 0x5c70577314f4b556, 0xe449b68198ec611c);
    w := Slide512(BLOCK, 63, w, 0xb6b482429572dd8, 0xc4bd4b921db768c7, 0x92aeeed1a7bcf7d2);
  }

  // ---- Rounds ----

  lemma Rounds0() returns (s: Trace)
    ensures After(SHA512, BLOCK, 0, s)
    ensures s == Trace(0x6a09e667f3bcc908, 0xbb67ae8584caa73b, 0x3c6ef372fe94f82b, 0xa54ff53a5f1d36f1,
                       0x510e527fade682d1, 0x9b05688c2b3e6c1f, 0x1f83d9abfb41bd6b, 0x5be0cd19137e2179)
  {
    s := Trace(0x6a09e667f3bcc908, 0xbb67ae8584caa73b, 0x3c6ef372fe94f82b, 0xa54ff53a5f1d36f1, 0x510e527fade682d1,
               0x9b05688c2b3e6c1f, 0x1f83d9abfb41bd6b, 0x5be0cd19137e2179);
    Tables512();
  }

  lemma Rounds4() returns (s: Trace)
    ensures s == Trace(0x5a83cb3e80050e82, 0xebcffc07203d91f3, 0x1320f8c9fb872cc0, 0xf6afceb8bcfcddf5,
                       0xb47b4bb1928990e, 0xdfa9b239f2697812, 0xc3d4ebfd48650ffa, 0x58cb02347ab51f91)
    ensures After(SHA512, BLOCK, 4, s)
  {
    hide After, ConstantIs, WordIs, WordsAre;
    s := Rounds0();
    var w := Words0();
    EachWord(SHA512, BLOCK, 0, w);
    Constants0();
    s := Up512(BLOCK, 0, s, 0x428a2f98d728ae22, w.w0, 0x5218a97a1b97e8a0, 0xb37b0cfa1b97e8a0, 0xf6afceb8bcfcddf5,
               0x58cb02347ab51f91);
    s := Up512(BLOCK, 1, s, 0x7137449123ef65cd, w.w1, 0x8765f88a49d017cf, 0x8765f88a49d017cf, 0x1320f8c9fb872cc0,
               0xc3d4ebfd48650ffa);
    s := Up512(BLOCK, 2, s, 0xb5c0fbcfec4d3b2f, w.w2, 0x244203b46d9ed0d7, 0x244203b46d9ed0d7, 0xebcffc07203d91f3,
               0xdfa9b239f2697812);
    s := Up512(BLOCK, 3, s, 0xe9b5dba58189dbbc, w.w3, 0xa13dce53256bd006, 0xa13dce53256bd006, 0x5a83cb3e80050e82,
               0xb47b4bb1928990e);
  }

  lemma Rounds8() returns (s: Trace)
    ensures s == Trace(0x8093d195e0054fa3, 0xc4875b0c7abc076b, 0xaf573b02403e89cd, 0xb680953951604860,
                       0x86f67263a0f0ec0a, 0x5a6c781f54dcc00c, 0x96f60209b6dc35ba, 0x745aca4a342ed2e2)
    ensures After(SHA512, BLOCK, 8, s)
  {
    hide After, ConstantIs, WordIs, WordsAre;
    s := Rounds4();
    var w := Words0();
    EachWord(SHA512, BLOCK, 0, w);
    Constants0();
    s := Up512(BLOCK, 4, s, 0x3956c25bf348b538, w.w4, 0x7daafb917731f4ed, 0x7daafb917731f4ed, 0xb680953951604860,
               0x745aca4a342ed2e2);
    s := Up512(BLOCK, 5, s, 0x59f111f1b605d019, w.w5, 0x83d5093fbb5508fa, 0x83d5093fbb5508fa, 0xaf573b02403e89cd,
               0x96f60209b6dc35ba);
    s := Up512(BLOCK, 6, s, 0x923f82a4af194f9b, w.w6, 0x6e9c7c18349f2e19, 0x6e9c7c18349f2e19, 0xc4875b0c7abc076b,
               0x5a6c781f54dcc00c);
    s := Up512(BLOCK, 7, s, 0xab1c5ed5da6d8118, w.w7, 0x2c72a72520ebdd88, 0x2c72a72520ebdd88, 0x8093d195e0054fa3,
               0x86f67263a0f0ec0a);
  }

  lemma Rounds12() returns (s: Trace)
    ensures s == Trace(0xdb0a9963f80c2eaa, 0x69854c4aa0f25b59, 0x81782d4a5db48f03, 0xf1eca5544cb89225,
                       0x475975b91a7a462c, 0xd375471bde1ba3f4, 0x91f460be46c52, 0xd0403c398fc40002)
    ensures After(SHA512, BLOCK, 12, s)
  {
    hide After, ConstantIs, WordIs, WordsAre;
    s := Rounds8();
    var w := Words0();
    EachWord(SHA512, BLOCK, 0, w);
    Constants8();
    s := Up512(BLOCK, 8, s, 0xd807aa98a3030242, w.w8, 0x19bfa7003e63b7a2, 0x19bfa7003e63b7a2, 0xf1eca5544cb89225,
               0xd0403c398fc40002);
    s := Up512(BLOCK, 9, s, 0x12835b0145706fbe, w.w9, 0x50b1e443cba5e285, 0x50b1e443cba5e285, 0x81782d4a5db48f03,
               0x91f460be46c52);
    s := Up512(BLOCK, 10, s, 0x243185be4ee4b28c, w.w10, 0xeedec0f635f9c89, 0xeedec0f635f9c89, 0x69854c4aa0f25b59,
               0xd375471bde1ba3f4);
    s := Up512(BLOCK, 11, s, 0x550c7dc3d5ffb4e2, w.w11, 0xc6c5a4233a74f689, 0xc6c5a4233a74f689, 0xdb0a9963f80c2eaa,
               0x475975b91a7a462c);
  }

  lemma Rounds16() returns (s: Trace)
    ensures s == Trace(0xae07c86b1181c75, 0xfa967eed85a08028, 0x44249631255d2ca0, 0x5e41214388186c14,
                       0xa77b7c035dd4c161, 0x874bfe5f6aae9f2f, 0x860acf9effba6f61, 0xcdf3bff2883fc9d9)
    ensures After(SHA512, BLOCK, 16, s)
  {
    hide After, ConstantIs, WordIs, WordsAre;
    s := Rounds12();
    var w := Words0();
    EachWord(SHA512, BLOCK, 0, w);
    Constants8();
    s := Up512(BLOCK, 12, s, 0x72be5d74f27b896f, w.w12, 0xdc071a9e3b8737b4, 0xdc071a9e3b8737b4, 0x5e41214388186c14,
               0xcdf3bff2883fc9d9);
    s := Up512(BLOCK, 13, s, 0x80deb1fe3b1696b1, w.w13, 0x492a254a205e05e, 0x492a254a205e05e, 0x44249631255d2ca0,
               0x860acf9effba6f61);
    s := Up512(BLOCK, 14, s, 0x9bdc06a725c71235, w.w14, 0x1dc6b214c9bc43d6, 0x1dc6b214c9bc43d6, 0xfa967eed85a08028,
               0x874bfe5f6aae9f2f);
    s := Up512(BLOCK, 15, s, 0xc19bf174cf692694, w.w15, 0xcc70e29f65c8929f, 0xcc70e29f65c892b7, 0xae07c86b1181c75,
               0xa77b7c035dd4c161);
  }

  lemma Rounds24() returns (s: Trace)
    ensures s == Trace(0x4f6877b58fe55484, 0x3e2644567b709a78, 0xda34d6673d452dcf, 0x8dc5ae65569d3855,
                       0xc66005f87db55233, 0xac2b11da8f571c6, 0x8e30ff09ad488753, 0x4bb9e66d1145bfdc)
    ensures After(SHA512, BLOCK, 24, s)
  {
    hide After, ConstantIs, WordIs, WordsAre;
    s := Rounds16();
    var w := Words16();
    EachWord(SHA512, BLOCK, 16, w);
    Constants16();
    s := Up512(BLOCK, 16, s, 0xe49b69c19ef14ad2, w.w0, 0x6e4b47a7b1bde164, 0xcfadab27b1bde164, 0xcaf81a425d800537,
               0x2deecc6b39d64d78);
    s := Up512(BLOCK, 17, s, 0xefbe4786384f25e3, w.w1, 0xb056ed22d2a746f5, 0xb059ed22d2a747b5, 0x4725be249ad19e6b,
               0xf47e8353f8047455);
    s := Up512(BLOCK, 18, s, 0xfc19dc68b8cd5b5, w.w2, 0x243c4748bb715ba5, 0x2ed2e0eb07e15ba8, 0x3c4b4104168e3edb,
               0x29695fd88d81dbd0);
    s := Up512(BLOCK, 19, s, 0x240ca1cc77ac9c65, w.w3, 0xe66910564e585406, 0xe6691c56ae585a09, 0x9a3fb4d38ab6cf06,
               0xf14998dd5f70767e);
    s := Up512(BLOCK, 20, s, 0x2de92c6f592b0275, w.w4, 0x2c22d6047a40310f, 0x80c1cc2ab3c5baa5, 0x8dc5ae65569d3855,
               0x4bb9e66d1145bfdc);
    s := Up512(BLOCK, 21, s, 0x4a7484aa6ea6e483, w.w5, 0x464b40b21276ace8, 0x470b40e51276e8e8, 0xda34d6673d452dcf,
               0x8e30ff09ad488753);
    s := Up512(BLOCK, 22, s, 0x5cb0a9dcbd41fbd4, w.w6, 0xb9e06f9f0858952f, 0xce777019926732eb, 0x3e2644567b709a78,
               0xac2b11da8f571c6);
    s := Up512(BLOCK, 23, s, 0x76f988da831153b5, w.w7, 0xc93aec2426f7023d, 0x2c205124f2fe832d, 0x4f6877b58fe55484,
               0xc66005f87db55233);
  }

  lemma Rounds32() returns (s: Trace)
    ensures s == Trace(0xff4d3f1f0d46a736, 0x4c4fbbb75f1873a6, 0x74bf40f869094c63, 0xe62349090f47d30a,
                       0x3cd388e119e8162e, 0x73e025d91b9efea3, 0xf0aec2fe1437f085, 0xfcdf99710f21584)
    ensures After(SHA512, BLOCK, 32, s)
  {
    hide After, ConstantIs, WordIs, WordsAre;
    s := Rounds24();
    var w := Words16();
    EachWord(SHA512, BLOCK, 16, w);
    Constants24();
    s := Up512(BLOCK, 24, s, 0x983e5152ee66dfab, w.w8, 0xcec6658ab8274e83, 0x462742d2127ad61a, 0x9aff71163fa3a940,
               0xd3ecf13769180e6f);
    s := Up512(BLOCK, 25, s, 0xa831c66d2db43210, w.w9, 0xa254fdff946bb564, 0x93aa4970b087b567, 0xbc5f791f8e6816b,
               0x6ddf1fd7edcce336);
    s := Up512(BLOCK, 26, s, 0xb00327c898fb213f, w.w10, 0xde94b49fdec648fb, 0xa8be48441323e8ed, 0x884c3bc27bc4f941,
               0xe6e48c9a8e948365);
    s := Up512(BLOCK, 27, s, 0xbf597fc7beef0ee4, w.w11, 0x5b8fabe2cdf0dbf6, 0xb99e12989574b928, 0xeab4a9e5771b8d09,
               0x9068a4e255a0dac);
    s := Up512(BLOCK, 28, s, 0xc6e00bf33da88fc2, w.w12, 0x92742623d10520e2, 0x74ce8880d14e6c44, 0xe62349090f47d30a,
               0xfcdf99710f21584);
    s := Up512(BLOCK, 29, s, 0xd5a79147930aa725, w.w13, 0x45a482fc696c7348, 0xe4e8cb6c1b516f1a, 0x74bf40f869094c63,
               0xf0aec2fe1437f085);
    s := Up512(BLOCK, 30, s, 0x6ca6351e003826f, w.w14, 0x38785deb99d1a633, 0xeb93ea169fda0562, 0x4c4fbbb75f1873a6,
               0x73e025d91b9efea3);
    s := Up512(BLOCK, 31, s, 0x142929670a0e6e70, w.w15, 0x4386689b0f8b462f, 0x521edefba2cc8925, 0xff4d3f1f0d46a736,
               0x3cd388e119e8162e);
  }

  lemma Rounds40() returns (s: Trace)
    ensures s == Trace(0x8e01e125b855d225, 0xb3bb8542b3376de5, 0x2bb8e4cd989567, 0x88df85b0bbe77514,
                       0xc710a47ba6a567b, 0xb49596c20feba7de, 0x66adcfa249ac7bbd, 0x8fbfd0162bbf4675)
    ensures After(SHA512, BLOCK, 40, s)
  {
    hide After, ConstantIs, WordIs, WordsAre;
    s := Rounds32();
    var w := Words32();
    EachWord(SHA512, BLOCK, 32, w);
    Constants32();
    s := Up512(BLOCK, 32, s, 0x27b70a8546d22ffc, w.w0, 0x5630cf6d4c068441, 0xfadffc6a56023d65, 0xa0509015ca08c8d4,
               0xe1034573654a106f);
    s := Up512(BLOCK, 33, s, 0x2e1b21385c26c926, w.w1, 0xcdc3de657f9d8631, 0x7aec7c938b72b7b7, 0x60d4e6995ed91fe6,
               0xefabbd8bf47c041a);
    s := Up512(BLOCK, 34, s, 0x4d2c6dfc5ac42aed, w.w2, 0x86f6d47ef86634ef, 0xc36b2ab99b5f9c2d, 0x2c59ec7743632621,
               0xfbae670fa780fd3);
    s := Up512(BLOCK, 35, s, 0x53380d139d95b3df, w.w3, 0x847cfbfb76cfe858, 0xf14ac91042e49d97, 0x1a081afc59fdbc2c,
               0xf098082f502b44cd);
    s := Up512(BLOCK, 36, s, 0x650a73548baf63de, w.w4, 0x2b761a4d29c451c3, 0xef6f400061b67da1, 0x88df85b0bbe77514,
               0x8fbfd0162bbf4675);
    s := Up512(BLOCK, 37, s, 0x766a0abb3c77b2a8, w.w5, 0xaa0c71618ffa0083, 0x5d8e908ead35bd7, 0x2bb8e4cd989567,
               0x66adcfa249ac7bbd);
    s := Up512(BLOCK, 38, s, 0x81c2c92e47edaee6, w.w6, 0x497984cfefe7e76b, 0x883baa4acc8881bd, 0xb3bb8542b3376de5,
               0xb49596c20feba7de);
    s := Up512(BLOCK, 39, s, 0x92722c851482353b, w.w7, 0xca4485eb604cd464, 0xf268ef4b606c9a4f, 0x8e01e125b855d225,
               0xc710a47ba6a567b);
  }

  lemma Rounds48() returns (s: Trace)
    ensures s == Trace(0x6b69fc1bb482feac, 0xf61e672694de2d67, 0x21fbadbabab5ac6, 0xc47c9d5c7ea8a234,
                       0x35264334c03ac8ad, 0xc6bc35740d8daa9a, 0xe95c2a57572d64d9, 0x858d832ae0e8911c)
    ensures After(SHA512, BLOCK, 48, s)
  {
    hide After, ConstantIs, WordIs, WordsAre;
    s := Rounds40();
    var w := Words32();
    EachWord(SHA512, BLOCK, 32, w);
    Constants40();
    s := Up512(BLOCK, 40, s, 0xa2bfe8a14cf10364, w.w8, 0x88cd488d1aa7b96d, 0x8db08302e8d3a1f7, 0xb01521dd6a6be12c,
               0x169008b3a4bb170b);
    s := Up512(BLOCK, 41, s, 0xa81a664bbc423001, w.w9, 0x731a96a156c29663, 0xf06dab551a1c774a, 0xe96f89dd48cbd851,
               0xf0996439e7b50cb1);
    s := Up512(BLOCK, 42, s, 0xc24b8b70d0f89791, w.w10, 0xe991702ef14145, 0xafe133f62e1653ab, 0xbc05ba8de5d3c480,
               0x639cb938e14dc190);
    s := Up512(BLOCK, 43, s, 0xc76c51a30654be30, w.w11, 0x32caad1ba9129e7e, 0x3e4f1f73c7013ecd, 0x35d7e7f41defcbd5,
               0xcc5100997f5710f2);
    s := Up512(BLOCK, 44, s, 0xd192e819d6ef5218, w.w12, 0x24037ede98b4ffbd, 0xd578614d767caff0, 0xc47c9d5c7ea8a234,
               0x858d832ae0e8911c);
    s := Up512(BLOCK, 45, s, 0xd69906245565a910, w.w13, 0xa288e594808403aa, 0xffeca07a0e618c88, 0x21fbadbabab5ac6,
               0xe95c2a57572d64d9);
    s := Up512(BLOCK, 46, s, 0xf40e35855771202a, w.w14, 0xbeb23ade7075195f, 0xab67ae627b9e61a, 0xf61e672694de2d67,
               0xc6bc35740d8daa9a);
    s := Up512(BLOCK, 47, s, 0x106aa07032bbd1b8, w.w15, 0x18a4b0f32d6e7f95, 0xff4e5b40a24afcd8, 0x6b69fc1bb482feac,
               0x35264334c03ac8ad);
  }

  lemma Rounds56() returns (s: Trace)
    ensures s == Trace(0x63b460e42748817e, 0xf650857b5babda4d, 0xd63f68037ddf06aa, 0x3df11b32d42e203,
                       0xc6b4dd2a9931c509, 0x9ccfb31a86df0f86, 0xa6781efe1aa1ce02, 0x504f94e40591cffa)
    ensures After(SHA512, BLOCK, 56, s)
  {
    hide After, ConstantIs, WordIs, WordsAre;
    s := Rounds48();
    var w := Words48();
    EachWord(SHA512, BLOCK, 48, w);
    Constants48();
    s := Up512(BLOCK, 48, s, 0x19a4c116b8d2d0c8, w.w0, 0x76adf26d7b4db280, 0x6298e390ed95b41c, 0x571f323d96b3a047,
               0x271580ed6c3e5650);
    s := Up512(BLOCK, 49, s, 0x1e376c085141ab53, w.w1, 0xa7a2564c35c859ec, 0xddc0d6ff05d78b7f, 0xca9bd862c5050918,
               0xdfe091dab182e645);
    s := Up512(BLOCK, 50, s, 0x2748774cdf8eeb99, w.w2, 0xe2ea38b68f4a7f3e, 0x118271c8ed3e30b3, 0x813a43dd2c502043,
               0x7a0d8ef821c5e1a);
    s := Up512(BLOCK, 51, s, 0x34b0bcb5e19b48a8, w.w3, 0xa9bc21f9e67e902f, 0xdcd5848c7a2be392, 0xd43f83727325dd77,
               0x483f80a82eaee23e);
    s := Up512(BLOCK, 52, s, 0x391c0cb3c5c95a63, w.w4, 0x5c74051cc2c2a5de, 0xf93062a66ede2fb3, 0x3df11b32d42e203,
               0x504f94e40591cffa);
    s := Up512(BLOCK, 53, s, 0x4ed8aa4ae3418acb, w.w5, 0xb47e229b66d27433, 0xdbdc469b559cc4ea, 0xd63f68037ddf06aa,
               0xa6781efe1aa1ce02);
    s := Up512(BLOCK, 54, s, 0x5b9cca4f7763e373, w.w6, 0xe01498bc9b24ffeb, 0x1b956f3d5a8eef43, 0xf650857b5babda4d,
               0x9ccfb31a86df0f86);
    s := Up512(BLOCK, 55, s, 0x682e6ff3d6b2b8a3, w.w7, 0xe56ec324ecc6466d, 0xf27559b8260be792, 0x63b460e42748817e,
               0xc6b4dd2a9931c509);
  }

  lemma Rounds64() returns (s: Trace)
    ensures s == Trace(0xab44e86276478d85, 0xa81dedbb9f19e643, 0xcfcd928c5424e2b6, 0x3857dfd2fc37d3ba,
                       0xcd881ee59ca6bc53, 0x84058865d60a05fa, 0x9aee5bda1644de5, 0xa6af4e9c9f807e51)
    ensures After(SHA512, BLOCK, 64, s)
  {
    hide After, ConstantIs, WordIs, WordsAre;
    s := Rounds56();
    var w := Words48();
    EachWord(SHA512, BLOCK, 48, w);
    Constants56();
    s := Up512(BLOCK, 56, s, 0x748f82ee5defb2fc, w.w8, 0x59d59f4dad162add, 0xcf098a0a649d29dd, 0x7a52912943d52b05,
               0xd2e89bbd91e00be0);
    s := Up512(BLOCK, 57, s, 0x78a5636f43172f60, w.w9, 0xe178cab5ad685a1d, 0x9a10f18494644b02, 0x4b81c3aec976ea4b,
               0x70505988124351ac);
    s := Up512(BLOCK, 58, s, 0x84c87814a1f0ab72, w.w10, 0x4f50c5d768baa64a, 0x73ec1594161ce4e9, 0x581ecb3355dcd9b8,
               0x6a3c9b0f71c8bf36);
    s := Up512(BLOCK, 59, s, 0x8cc702081a6439ec, w.w11, 0x98f8cf0e15c115f6, 0xe3e36d00c5ee8514, 0x2c074484ef1eac8c,
               0x4797cde4ed370692);
    s := Up512(BLOCK, 60, s, 0x90befffa23631e28, w.w12, 0xff9748fdb64cc5bd, 0x2c5cbd735bab534c, 0x3857dfd2fc37d3ba,
               0xa6af4e9c9f807e51);
    s := Up512(BLOCK, 61, s, 0xa4506cebde82bde9, w.w13, 0xbd5d7259f14a511, 0xbe2d220ed7ed639a, 0xcfcd928c5424e2b6,
               0x9aee5bda1644de5);
    s := Up512(BLOCK, 62, s, 0xbef9a3f7b2c67915, w.w14, 0x6a3362dacebfc158, 0x2be6bd32802d2c42, 0xa81dedbb9f19e643,
               0x84058865d60a05fa);
    s := Up512(BLOCK, 63, s, 0xc67178f2e372532b, w.w15, 0xd537c1ab18f6090c, 0xa180da60ad880fc7, 0xab44e86276478d85,
               0xcd881ee59ca6bc53);
  }

  lemma Rounds72() returns (s: Trace)
    ensures s == Trace(0xf15e9664b2803575, 0x7652c579cb60f19c, 0xfb6aaae5d0b6a447, 0x181839d609c79748,
                       0x947c3dfafee570ef, 0xaff62c9665ff80fa, 0xe3711cb6564d112d, 0xada78ba2d446140)
    ensures After(SHA512, BLOCK, 72, s)
  {
    hide After, ConstantIs, WordIs, WordsAre;
    s := Rounds64();
    var w := Words64();
    EachWord(SHA512, BLOCK, 64, w);
    Constants64();
    s := Up512(BLOCK, 64, s, 0xca273eceea26619c, w.w0, 0x21930d0594b2f79f, 0x722cd0b36c52888b, 0x5a806d7e9821a501,
               0xaa84b086688a5c45);
    s := Up512(BLOCK, 65, s, 0xd186b8c721c0c207, w.w1, 0xcea3d082e94a83a, 0x6b925a8115fab42b, 0xeeb9c21bb0102598,
               0x3b5fed0d6a1f96e1);
    s := Up512(BLOCK, 66, s, 0xeada7dd6cde0eb1e, w.w2, 0x95ee6584e0808a7a, 0x81dcc7ec20db4d23, 0x46c4210ab2cc155d,
               0x29fab5a7bff53366);
    s := Up512(BLOCK, 67, s, 0xf57d4f7fee6ed178, w.w3, 0xc102ea78be18d99f, 0x71220c0b1f217e4a, 0x54ba35cf56a0340e,
               0x1c66f46d95690bcf);
    s := Up512(BLOCK, 68, s, 0x6f067aa72176fba, w.w4, 0x37f5d75e653c66e9, 0xb05a0b3b9522bc3f, 0x181839d609c79748,
               0xada78ba2d446140);
    s := Up512(BLOCK, 69, s, 0xa637dc5a2c898a6, w.w5, 0x2f6cebf0819c9669, 0xf4b75a9aa63ceb95, 0xfb6aaae5d0b6a447,
               0xe3711cb6564d112d);
    s := Up512(BLOCK, 70, s, 0x113f9804bef90dae, w.w6, 0xb5691a38a757c0ff, 0x69320b8bb3336b9d, 0x7652c579cb60f19c,
               0xaff62c9665ff80fa);
    s := Up512(BLOCK, 71, s, 0x1b710b35131c471b, w.w7, 0x8437484638fea9a9, 0x3fc2082ba8453ce1, 0xf15e9664b2803575,
               0x947c3dfafee570ef);
  }

  lemma Rounds80() returns (s: Trace)
    ensures s == Trace(0x73a54f399fa4b1b2, 0x10d9c4c4295599f6, 0xd67806db8b148677, 0x654ef9abec389ca9,
                       0xd08446aa79693ed7, 0x9bb4d39778c07f9e, 0x25c96a7768fb2aa3, 0xceb9fc3691ce8326)
    ensures After(SHA512, BLOCK, 80, s)
  {
    hide After, ConstantIs, WordIs, WordsAre;
    s := Rounds72();
    var w := Words64();
    EachWord(SHA512, BLOCK, 64, w);
    Constants72();
    s := Up512(BLOCK, 72, s, 0x28db77f523047d84, w.w8, 0x7e25e39d44955ae0, 0x7463260310b1b558, 0x358406d165aee9ab,
               0x8c7b5fd91a794ca0);
    s := Up512(BLOCK, 73, s, 0x32caab7b40c72493, w.w9, 0x4b5f34660fd0098e, 0x9e28a5082e2a489, 0x20878dcd29cdfaf5,
               0x54d3536539948d0);
    s := Up512(BLOCK, 74, s, 0x3c9ebe0a15c9bebc, w.w10, 0x6b6be13d2bdd347e, 0xb54ebccbe9acf333, 0x33d48dabb5521de2,
               0x2ba18245b50de4cf);
    s := Up512(BLOCK, 75, s, 0x431d67c49c100d4c, w.w11, 0x25cae5f7c48130d0, 0xa7f183424cbb6e69, 0xc8960e6be864b916,
               0x995019a6ff3ba3de);
    s := Up512(BLOCK, 76, s, 0x4cc5d4becb3e42b6, w.w12, 0x9b40b7722b006350, 0x9935f5652c1f997b, 0x654ef9abec389ca9,
               0xceb9fc3691ce8326);
    s := Up512(BLOCK, 77, s, 0x597f299cfc657e2a, w.w13, 0xbef6e74321bb6e80, 0x541dcaa3f2d2fae, 0xd67806db8b148677,
               0x25c96a7768fb2aa3);
    s := Up512(BLOCK, 78, s, 0x5fcb6fab3ad6faec, w.w14, 0x83968f6a2a8200a0, 0x67e045ebc36e61bc, 0x10d9c4c4295599f6,
               0x9bb4d39778c07f9e);
    s := Up512(BLOCK, 79, s, 0x6c44198c4a475817, w.w15, 0x753f496ce9478def, 0x7ee383e910485c1, 0x73a54f399fa4b1b2,
               0xd08446aa79693ed7);
  }

  // ---- Digest ----

  const DIGEST: seq<bool> := ToBits(64, 0xddaf35a193617aba) + ToBits(64, 0xcc417349ae204131) +
                             ToBits(64, 0x12e6fa4e89a97ea2) + ToBits(64, 0xa9eeee64b55d39a) +
                             ToBits(64, 0x2192992a274fc1a8) + ToBits(64, 0x36ba3c23a3feebbd) +
                             ToBits(64, 0x454d4423643ce80e) + ToBits(64, 0x2a9ac94fa54ca49f)

  lemma BlockOfAbc()
    ensures Words(64, Padding(SHA512, ABC)) == BLOCK && |Padding(SHA512, ABC)| == SHA512.BlockBits()
  {
    hide Words, Padding, FirstWord;
    PaddedAbc(SHA512);
    FirstWordOfAbc(64);
  }

  lemma FinalSums(h: Trace, s: Trace)
    requires h == Trace(0x6a09e667f3bcc908, 0xbb67ae8584caa73b, 0x3c6ef372fe94f82b, 0xa54ff53a5f1d36f1,
                        0x510e527fade682d1, 0x9b05688c2b3e6c1f, 0x1f83d9abfb41bd6b, 0x5be0cd19137e2179)
    requires s == Trace(0x73a54f399fa4b1b2, 0x10d9c4c4295599f6, 0xd67806db8b148677, 0x654ef9abec389ca9,
                        0xd08446aa79693ed7, 0x9bb4d39778c07f9e, 0x25c96a7768fb2aa3, 0xceb9fc3691ce8326)
    ensures Summed512(h, s) == Trace(0xddaf35a193617aba, 0xcc417349ae204131, 0x12e6fa4e89a97ea2, 0xa9eeee64b55d39a,
                                     0x2192992a274fc1a8, 0x36ba3c23a3feebbd, 0x454d4423643ce80e, 0x2a9ac94fa54ca49f)
  {
  }

  lemma InitialValue(h: Trace)
    requires h == Trace(0x6a09e667f3bcc908, 0xbb67ae8584caa73b, 0x3c6ef372fe94f82b, 0xa54ff53a5f1d36f1,
                        0x510e527fade682d1, 0x9b05688c2b3e6c1f, 0x1f83d9abfb41bd6b, 0x5be0cd19137e2179)
    ensures SHA512.h == Numbers(h) && AreWords(64, h)
  {
  }

  /** The hash value after the block. */
  lemma FinalState(s: Trace)
    requires s == Trace(0x73a54f399fa4b1b2, 0x10d9c4c4295599f6, 0xd67806db8b148677, 0x654ef9abec389ca9,
                        0xd08446aa79693ed7, 0x9bb4d39778c07f9e, 0x25c96a7768fb2aa3, 0xceb9fc3691ce8326)
    requires AreWords(64, s)
    ensures AddStates(SHA512, SHA512.h, Numbers(s)) == Numbers(Trace(0xddaf35a193617aba, 0xcc417349ae204131,
                                                                     0x12e6fa4e89a97ea2, 0xa9eeee64b55d39a,
                                                                     0x2192992a274fc1a8, 0x36ba3c23a3feebbd,
                                                                     0x454d4423643ce80e, 0x2a9ac94fa54ca49f))
  {
    var h := Trace(0x6a09e667f3bcc908, 0xbb67ae8584caa73b, 0x3c6ef372fe94f82b, 0xa54ff53a5f1d36f1, 0x510e527fade682d1,
                   0x9b05688c2b3e6c1f, 0x1f83d9abfb41bd6b, 0x5be0cd19137e2179);
    hide Numbers, Summed512, AddStates, IsWord;
    InitialValue(h);
    SummedNumbers512(h, s);
    FinalSums(h, s);
  }

  lemma DigestBits()
    ensures StateBits(SHA512,
                      Numbers(Trace(0xddaf35a193617aba, 0xcc417349ae204131, 0x12e6fa4e89a97ea2, 0xa9eeee64b55d39a,
                                          0x2192992a274fc1a8, 0x36ba3c23a3feebbd, 0x454d4423643ce80e,
                                            0x2a9ac94fa54ca49f)))
         == DIGEST
  {
    hide ToBits;
  }

  /** The digest of "abc". */
  lemma DigestOfAbc()
    ensures Digest(SHA512, ABC) == DIGEST
  {
    hide After, Words, Padding, StateBits, AddStates, Digest, ABC, ToBits, Numbers, AreWords;
    var s := Rounds80();
    BlockOfAbc();
    Tables512();
    ReachedWords(SHA512, BLOCK, 80, s);
    DigestOfBlock(SHA512, BLOCK, s);
    FinalState(s);
    DigestBits();
  }

  /** Wherever a circuit is satisfied with "abc" on the message wires, the digest wires carry its digest. */
  lemma AbcOnWires(gates: seq<Gate>, inputs: seq<Wire>, message: seq<Wire>, digest: seq<Wire>, w: Assignment, i: nat)
    requires ComputesDigest(SHA512, gates, inputs, message, digest) && Satisfies(w, gates, inputs)
    requires |message| == 24 && forall j :: 0 <= j < 24 ==> w(message[j]) == if ABC[j] then 1 else 0
    ensures |digest| == 512
    ensures i < 512 ==> w(digest[i]) == if DIGEST[i] then 1 else 0
  {
    DigestOfAbc();
    DigestSize();
    hide Digest, DIGEST, Satisfies;
    assert BitValues(w, message) == ABC;
    if i < |digest| {
      CarryAt(w, digest, DIGEST, i);
    }
  }

  lemma DigestSize()
    ensures |DIGEST| == 512
  {
    hide ToBits;
  }
}
