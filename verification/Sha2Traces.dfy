// The hash computation on bit vectors, in which one round after the other can be checked.
module Sha2Traces {
  import opened Bits
  import opened BitStrings
  import opened Sha2
  import opened Sha2Variants
  import opened Sha2Words

  // ---- The functions on words ----

  function BigSigma0Of256(x: bv64): bv64 { Parity(Right2Of32(x), Right13Of32(x), Right22Of32(x)) }

  function BigSigma1Of256(x: bv64): bv64 { Parity(Right6Of32(x), Right11Of32(x), Right25Of32(x)) }

  function Sigma0Of256(x: bv64): bv64 { Parity(Right7Of32(x), Right18Of32(x), Down3(x)) }

  function Sigma1Of256(x: bv64): bv64 { Parity(Right17Of32(x), Right19Of32(x), Down10(x)) }

  function BigSigma0Of512(x: bv64): bv64 { Parity(Right28Of64(x), Right34Of64(x), Right39Of64(x)) }

  function BigSigma1Of512(x: bv64): bv64 { Parity(Right14Of64(x), Right18Of64(x), Right41Of64(x)) }

  function Sigma0Of512(x: bv64): bv64 { Parity(Right1Of64(x), Right8Of64(x), Down7(x)) }

  function Sigma1Of512(x: bv64): bv64 { Parity(Right19Of64(x), Right61Of64(x), Down6(x)) }

  lemma ParityIsWord(n: nat, a: bv64, b: bv64, c: bv64)
    requires IsWord(n, a) && IsWord(n, b) && IsWord(n, c)
    ensures IsWord(n, Parity(a, b, c)) && IsWord(n, Choose(a, b, c)) && IsWord(n, Majority(a, b, c))
  {
  }

  lemma NumberOfBits(n: nat, x: bv64)
    requires IsWord(n, x)
    ensures Nat(LowBits(n, x)) == Num(x)
  {
    NumBelow(n, x);
    NatOfBits(n, Num(x));
  }

  /** A sigma function, from its three rotated or shifted words. */
  lemma SigmaOfWord(v: Variant, s: Sigma, x: bv64, a: bv64, b: bv64, c: bv64)
    requires v.Fits(s) && IsWord(v.W(), a) && IsWord(v.W(), b) && IsWord(v.W(), c)
    requires LowBits(v.W(), a) == Rotr(LowBits(v.W(), x), s.first)
    requires LowBits(v.W(), b) == Rotr(LowBits(v.W(), x), s.second)
    requires LowBits(v.W(), c)
          == if s.shift then Shr(LowBits(v.W(), x), s.third) else Rotr(LowBits(v.W(), x), s.third)
    ensures IsWord(v.W(), Parity(a, b, c)) && SigmaWord(v, s, Num(x)) == Num(Parity(a, b, c))
  {
    hide Rotr, Shr, Xor3, Nat, ToBits, Num, IsWord, Parity;
    ParityIsWord(v.W(), a, b, c);
    ParityOfBits(v.W(), a, b, c);
    NumberOfBits(v.W(), Parity(a, b, c));
  }

  lemma BigSigma0Word256(x: bv64)
    requires x < 0x1_0000_0000
    ensures IsWord(32, BigSigma0Of256(x)) && SigmaWord(SHA256, SHA256.bigSigma0, Num(x)) == Num(BigSigma0Of256(x))
  {
    hide LowBits, Num, SigmaWord, Parity, Rotr, Shr, Right2Of32, Right13Of32, Right22Of32;
    Turned2Of32(x);
    Turned13Of32(x);
    Turned22Of32(x);
    SigmaOfWord(SHA256, SHA256.bigSigma0, x, Right2Of32(x), Right13Of32(x), Right22Of32(x));
  }

  lemma BigSigma1Word256(x: bv64)
    requires x < 0x1_0000_0000
    ensures IsWord(32, BigSigma1Of256(x)) && SigmaWord(SHA256, SHA256.bigSigma1, Num(x)) == Num(BigSigma1Of256(x))
  {
    hide LowBits, Num, SigmaWord, Parity, Rotr, Shr, Right6Of32, Right11Of32, Right25Of32;
    Turned6Of32(x);
    Turned11Of32(x);
    Turned25Of32(x);
    SigmaOfWord(SHA256, SHA256.bigSigma1, x, Right6Of32(x), Right11Of32(x), Right25Of32(x));
  }

  lemma Sigma0Word256(x: bv64)
    requires x < 0x1_0000_0000
    ensures IsWord(32, Sigma0Of256(x)) && SigmaWord(SHA256, SHA256.sigma0, Num(x)) == Num(Sigma0Of256(x))
  {
    hide LowBits, Num, SigmaWord, Parity, Rotr, Shr, Right7Of32, Right18Of32, Down3;
    Turned7Of32(x);
    Turned18Of32(x);
    Shifted3(32, x);
    SigmaOfWord(SHA256, SHA256.sigma0, x, Right7Of32(x), Right18Of32(x), Down3(x));
  }

  lemma Sigma1Word256(x: bv64)
    requires x < 0x1_0000_0000
    ensures IsWord(32, Sigma1Of256(x)) && SigmaWord(SHA256, SHA256.sigma1, Num(x)) == Num(Sigma1Of256(x))
  {
    hide LowBits, Num, SigmaWord, Parity, Rotr, Shr, Right17Of32, Right19Of32, Down10;
    Turned17Of32(x);
    Turned19Of32(x);
    Shifted10(32, x);
    SigmaOfWord(SHA256, SHA256.sigma1, x, Right17Of32(x), Right19Of32(x), Down10(x));
  }

  lemma BigSigma0Word512(x: bv64)
    ensures IsWord(64, BigSigma0Of512(x)) && SigmaWord(SHA512, SHA512.bigSigma0, Num(x)) == Num(BigSigma0Of512(x))
  {
    hide LowBits, Num, SigmaWord, Parity, Rotr, Shr, Right28Of64, Right34Of64, Right39Of64;
    Turned28Of64(x);
    Turned34Of64(x);
    Turned39Of64(x);
    SigmaOfWord(SHA512, SHA512.bigSigma0, x, Right28Of64(x), Right34Of64(x), Right39Of64(x));
  }

  lemma BigSigma1Word512(x: bv64)
    ensures IsWord(64, BigSigma1Of512(x)) && SigmaWord(SHA512, SHA512.bigSigma1, Num(x)) == Num(BigSigma1Of512(x))
  {
    hide LowBits, Num, SigmaWord, Parity, Rotr, Shr, Right14Of64, Right18Of64, Right41Of64;
    Turned14Of64(x);
    Turned18Of64(x);
    Turned41Of64(x);
    SigmaOfWord(SHA512, SHA512.bigSigma1, x, Right14Of64(x), Right18Of64(x), Right41Of64(x));
  }

  lemma Sigma0Word512(x: bv64)
    ensures IsWord(64, Sigma0Of512(x)) && SigmaWord(SHA512, SHA512.sigma0, Num(x)) == Num(Sigma0Of512(x))
  {
    hide LowBits, Num, SigmaWord, Parity, Rotr, Shr, Right1Of64, Right8Of64, Down7;
    Turned1Of64(x);
    Turned8Of64(x);
    Shifted7(64, x);
    SigmaOfWord(SHA512, SHA512.sigma0, x, Right1Of64(x), Right8Of64(x), Down7(x));
  }

  lemma Sigma1Word512(x: bv64)
    ensures IsWord(64, Sigma1Of512(x)) && SigmaWord(SHA512, SHA512.sigma1, Num(x)) == Num(Sigma1Of512(x))
  {
    hide LowBits, Num, SigmaWord, Parity, Rotr, Shr, Right19Of64, Right61Of64, Down6;
    Turned19Of64(x);
    Turned61Of64(x);
    Shifted6(64, x);
    SigmaOfWord(SHA512, SHA512.sigma1, x, Right19Of64(x), Right61Of64(x), Down6(x));
  }

  lemma ChoiceWord(v: Variant, x: bv64, y: bv64, z: bv64)
    requires IsWord(v.W(), x) && IsWord(v.W(), y) && IsWord(v.W(), z)
    ensures IsWord(v.W(), Choose(x, y, z)) && IsWord(v.W(), Majority(x, y, z))
    ensures Ch(v, Num(x), Num(y), Num(z)) == Num(Choose(x, y, z))
    ensures Maj(v, Num(x), Num(y), Num(z)) == Num(Majority(x, y, z))
  {
    hide ChBits, MajBits, Nat, ToBits, Num, IsWord, Choose, Majority;
    ParityIsWord(v.W(), x, y, z);
    ChoiceOfBits(v.W(), x, y, z);
    MajorityOfBits(v.W(), x, y, z);
    NumberOfBits(v.W(), Choose(x, y, z));
    NumberOfBits(v.W(), Majority(x, y, z));
  }

  // ---- Traces ----

  /** Sixteen words of the message schedule in a row. */
  datatype Window = Window(w0: bv64, w1: bv64, w2: bv64, w3: bv64, w4: bv64, w5: bv64, w6: bv64, w7: bv64,
                           w8: bv64, w9: bv64, w10: bv64, w11: bv64, w12: bv64, w13: bv64, w14: bv64, w15: bv64)

  /** The working variables. */
  datatype Trace = Trace(a: bv64, b: bv64, c: bv64, d: bv64, e: bv64, f: bv64, g: bv64, h: bv64)

  function Numbers(s: Trace): Working
  {
    Working(Num(s.a), Num(s.b), Num(s.c), Num(s.d), Num(s.e), Num(s.f), Num(s.g), Num(s.h))
  }

  function Slid(w: Window, x: bv64): Window
  {
    Window(w.w1, w.w2, w.w3, w.w4, w.w5, w.w6, w.w7, w.w8, w.w9, w.w10, w.w11, w.w12, w.w13, w.w14, w.w15, x)
  }

  /** Word t of the message schedule of a block. */
  ghost predicate WordIs(v: Variant, block: seq<nat>, t: nat, w: bv64)
  {
    |block| == 16 && IsWord(v.W(), w) && Schedule(v, block, t) == Num(w)
  }

  ghost predicate WordsAre(v: Variant, block: seq<nat>, t: nat, w: Window)
  {
    && WordIs(v, block, t, w.w0) && WordIs(v, block, t + 1, w.w1) && WordIs(v, block, t + 2, w.w2)
    && WordIs(v, block, t + 3, w.w3) && WordIs(v, block, t + 4, w.w4) && WordIs(v, block, t + 5, w.w5)
    && WordIs(v, block, t + 6, w.w6) && WordIs(v, block, t + 7, w.w7) && WordIs(v, block, t + 8, w.w8)
    && WordIs(v, block, t + 9, w.w9) && WordIs(v, block, t + 10, w.w10) && WordIs(v, block, t + 11, w.w11)
    && WordIs(v, block, t + 12, w.w12) && WordIs(v, block, t + 13, w.w13) && WordIs(v, block, t + 14, w.w14)
    && WordIs(v, block, t + 15, w.w15)
  }

  ghost predicate AreWords(n: nat, s: Trace)
  {
    && IsWord(n, s.a) && IsWord(n, s.b) && IsWord(n, s.c) && IsWord(n, s.d)
    && IsWord(n, s.e) && IsWord(n, s.f) && IsWord(n, s.g) && IsWord(n, s.h)
  }

  /** The working variables after t rounds over a block. */
  ghost predicate After(v: Variant, block: seq<nat>, t: nat, s: Trace)
  {
    |block| == 16 && t <= |v.k| && AreWords(v.W(), s) && Rounds(v, v.h, block, t) == Numbers(s)
  }

  ghost predicate ConstantIs(v: Variant, t: nat, k: bv64)
  {
    t < |v.k| && IsWord(v.W(), k) && v.k[t] == Num(k)
  }

  lemma WordBound(v: Variant)
    requires v == SHA256 || v == SHA512
    ensures Pow2(v.W()) == if v == SHA256 then 0x1_0000_0000 else 0x1_0000_0000_0000_0000
  {
    PowerOf32(32);
    Pow2Add(32, 32);
  }

  lemma WindowSlides(v: Variant, block: seq<nat>, t: nat, w: Window, x: bv64)
    requires WordsAre(v, block, t, w) && WordIs(v, block, t + 16, x)
    ensures WordsAre(v, block, t + 1, Slid(w, x))
  {
    hide WordIs;
  }

  lemma EachWord(v: Variant, block: seq<nat>, t: nat, w: Window)
    requires WordsAre(v, block, t, w)
    ensures WordIs(v, block, t, w.w0) && WordIs(v, block, t + 1, w.w1) && WordIs(v, block, t + 2, w.w2)
    ensures WordIs(v, block, t + 3, w.w3) && WordIs(v, block, t + 4, w.w4) && WordIs(v, block, t + 5, w.w5)
    ensures WordIs(v, block, t + 6, w.w6) && WordIs(v, block, t + 7, w.w7) && WordIs(v, block, t + 8, w.w8)
    ensures WordIs(v, block, t + 9, w.w9) && WordIs(v, block, t + 10, w.w10) && WordIs(v, block, t + 11, w.w11)
    ensures WordIs(v, block, t + 12, w.w12) && WordIs(v, block, t + 13, w.w13) && WordIs(v, block, t + 14, w.w14)
    ensures WordIs(v, block, t + 15, w.w15)
  {
    hide WordIs;
  }

  lemma WordsUsed(v: Variant, block: seq<nat>, t: nat, w: Window)
    requires WordsAre(v, block, t, w)
    ensures WordIs(v, block, t, w.w0) && WordIs(v, block, t + 1, w.w1) && WordIs(v, block, t + 9, w.w9)
    ensures WordIs(v, block, t + 14, w.w14)
  {
    hide WordIs;
  }

  lemma RoundsNext(v: Variant, block: seq<nat>, t: nat, s: Working, k: bv64, w: nat)
    requires |block| == 16 && ConstantIs(v, t, k) && Rounds(v, v.h, block, t) == s && Schedule(v, block, t) == w
    ensures Rounds(v, v.h, block, t + 1) == Round(v, s, Num(k), w)
  {
    hide Round, Schedule, Num;
  }

  // ---- Rounds of SHA-256 ----

  lemma Word256(x: bv64)
    requires IsWord(32, x)
    ensures x < 0x1_0000_0000
  {
  }

  lemma Plus256(x: bv64, y: bv64)
    requires IsWord(32, x) && IsWord(32, y)
    ensures IsWord(32, Add32(x, y)) && Num(Add32(x, y)) == Plus(SHA256, Num(x), Num(y))
  {
    hide Num, Add32, Pow2;
    WordBound(SHA256);
    Added32(x, y);
  }

  /** The two sums of a round. */
  function First256(s: Trace, k: bv64, w: bv64): bv64
  {
    Add32(Add32(Add32(Add32(s.h, BigSigma1Of256(s.e)), Choose(s.e, s.f, s.g)), k), w)
  }

  function Second256(s: Trace): bv64
  {
    Add32(BigSigma0Of256(s.a), Majority(s.a, s.b, s.c))
  }

  /** The word behind a window. */
  function Behind256(w: Window): bv64
  {
    Add32(Add32(Add32(Sigma1Of256(w.w14), w.w9), Sigma0Of256(w.w1)), w.w0)
  }

  lemma FirstSum256(s: Trace, k: bv64, w: bv64)
    requires AreWords(32, s) && IsWord(32, k) && IsWord(32, w)
    ensures IsWord(32, First256(s, k, w))
    ensures Num(First256(s, k, w))
         == Plus(SHA256,
                 Plus(SHA256, Plus(SHA256, Plus(SHA256, Num(s.h), SigmaWord(SHA256, SHA256.bigSigma1, Num(s.e))),
                                     Ch(SHA256, Num(s.e), Num(s.f), Num(s.g))), Num(k)), Num(w))
  {
    hide Num, Add32, Plus, SigmaWord, Ch, Choose, BigSigma1Of256, IsWord;
    Word256(s.e);
    BigSigma1Word256(s.e);
    ChoiceWord(SHA256, s.e, s.f, s.g);
    Plus256(s.h, BigSigma1Of256(s.e));
    Plus256(Add32(s.h, BigSigma1Of256(s.e)), Choose(s.e, s.f, s.g));
    Plus256(Add32(Add32(s.h, BigSigma1Of256(s.e)), Choose(s.e, s.f, s.g)), k);
    Plus256(Add32(Add32(Add32(s.h, BigSigma1Of256(s.e)), Choose(s.e, s.f, s.g)), k), w);
  }

  lemma SecondSum256(s: Trace)
    requires AreWords(32, s)
    ensures IsWord(32, Second256(s))
    ensures Num(Second256(s))
         == Plus(SHA256, SigmaWord(SHA256, SHA256.bigSigma0, Num(s.a)), Maj(SHA256, Num(s.a), Num(s.b), Num(s.c)))
  {
    hide Num, Add32, Plus, SigmaWord, Maj, Majority, BigSigma0Of256, IsWord;
    Word256(s.a);
    BigSigma0Word256(s.a);
    ChoiceWord(SHA256, s.a, s.b, s.c);
    Plus256(BigSigma0Of256(s.a), Majority(s.a, s.b, s.c));
  }

  lemma NextWord256(block: seq<nat>, t: nat, w: Window)
    requires WordsAre(SHA256, block, t, w)
    ensures WordIs(SHA256, block, t + 16, Behind256(w))
  {
    hide Num, Add32, Plus, SigmaWord, Sigma0Of256, Sigma1Of256, IsWord, WordsAre;
    WordsUsed(SHA256, block, t, w);
    Word256(w.w1);
    Word256(w.w14);
    Sigma0Word256(w.w1);
    Sigma1Word256(w.w14);
    Plus256(Sigma1Of256(w.w14), w.w9);
    Plus256(Add32(Sigma1Of256(w.w14), w.w9), Sigma0Of256(w.w1));
    Plus256(Add32(Add32(Sigma1Of256(w.w14), w.w9), Sigma0Of256(w.w1)), w.w0);
  }

  /** The next sixteen words, with the sigma functions in the sum for the last one. */
  lemma Slide256(block: seq<nat>, t: nat, w: Window, s1: bv64, s0: bv64, x: bv64) returns (next: Window)
    requires WordsAre(SHA256, block, t, w) && Sigma1Of256(w.w14) == s1 && Sigma0Of256(w.w1) == s0
    requires Add32(Add32(Add32(s1, w.w9), s0), w.w0) == x
    ensures WordsAre(SHA256, block, t + 1, next) && next == Slid(w, x)
  {
    hide WordIs, WordsAre, Add32, Sigma0Of256, Sigma1Of256;
    next := Slid(w, x);
    NextWord256(block, t, w);
    WindowSlides(SHA256, block, t, w, x);
  }

  /** One round more, with the first sum and the new values of the first and the fifth variable. */
  lemma Up256(block: seq<nat>, t: nat, s: Trace, k: bv64, w: bv64, t0: bv64, t1: bv64, a: bv64, e: bv64)
    returns (next: Trace)
    requires After(SHA256, block, t, s) && ConstantIs(SHA256, t, k) && WordIs(SHA256, block, t, w)
    requires Add32(Add32(Add32(s.h, BigSigma1Of256(s.e)), Choose(s.e, s.f, s.g)), k) == t0 && Add32(t0, w) == t1
    requires Add32(t1, Second256(s)) == a && Add32(s.d, t1) == e
    ensures After(SHA256, block, t + 1, next) && next == Trace(a, s.a, s.b, s.c, e, s.e, s.f, s.g)
  {
    hide Num, Add32, BigSigma1Of256, Choose, Plus, SigmaWord, Ch, Maj, Second256, IsWord, Rounds, Schedule;
    next := Trace(a, s.a, s.b, s.c, e, s.e, s.f, s.g);
    FirstSum256(s, k, w);
    SecondSum256(s);
    Plus256(First256(s, k, w), Second256(s));
    Plus256(s.d, First256(s, k, w));
    RoundsNext(SHA256, block, t, Numbers(s), k, Num(w));
  }

  /** The sums with the initial hash value. */
  function Summed256(h: Trace, s: Trace): Trace
  {
    Trace(Add32(h.a, s.a), Add32(h.b, s.b), Add32(h.c, s.c), Add32(h.d, s.d),
          Add32(h.e, s.e), Add32(h.f, s.f), Add32(h.g, s.g), Add32(h.h, s.h))
  }

  lemma SummedNumbers256(h: Trace, s: Trace)
    requires AreWords(32, h) && AreWords(32, s)
    ensures AddStates(SHA256, Numbers(h), Numbers(s)) == Numbers(Summed256(h, s))
  {
    hide Num, Add32, Plus, IsWord;
    Plus256(h.a, s.a);
    Plus256(h.b, s.b);
    Plus256(h.c, s.c);
    Plus256(h.d, s.d);
    Plus256(h.e, s.e);
    Plus256(h.f, s.f);
    Plus256(h.g, s.g);
    Plus256(h.h, s.h);
  }

  // ---- Rounds of SHA-512 ----

  lemma Plus512(x: bv64, y: bv64)
    requires IsWord(64, x) && IsWord(64, y)
    ensures IsWord(64, Add64(x, y)) && Num(Add64(x, y)) == Plus(SHA512, Num(x), Num(y))
  {
    hide Num, Add64, Pow2;
    WordBound(SHA512);
    Added64(x, y);
  }

  /** The two sums of a round. */
  function First512(s: Trace, k: bv64, w: bv64): bv64
  {
    Add64(Add64(Add64(Add64(s.h, BigSigma1Of512(s.e)), Choose(s.e, s.f, s.g)), k), w)
  }

  function Second512(s: Trace): bv64
  {
    Add64(BigSigma0Of512(s.a), Majority(s.a, s.b, s.c))
  }

  /** The word behind a window. */
  function Behind512(w: Window): bv64
  {
    Add64(Add64(Add64(Sigma1Of512(w.w14), w.w9), Sigma0Of512(w.w1)), w.w0)
  }

  lemma FirstSum512(s: Trace, k: bv64, w: bv64)
    requires AreWords(64, s) && IsWord(64, k) && IsWord(64, w)
    ensures IsWord(64, First512(s, k, w))
    ensures Num(First512(s, k, w))
         == Plus(SHA512,
                 Plus(SHA512, Plus(SHA512, Plus(SHA512, Num(s.h), SigmaWord(SHA512, SHA512.bigSigma1, Num(s.e))),
                                     Ch(SHA512, Num(s.e), Num(s.f), Num(s.g))), Num(k)), Num(w))
  {
    hide Num, Add64, Plus, SigmaWord, Ch, Choose, BigSigma1Of512, IsWord;
    BigSigma1Word512(s.e);
    ChoiceWord(SHA512, s.e, s.f, s.g);
    Plus512(s.h, BigSigma1Of512(s.e));
    Plus512(Add64(s.h, BigSigma1Of512(s.e)), Choose(s.e, s.f, s.g));
    Plus512(Add64(Add64(s.h, BigSigma1Of512(s.e)), Choose(s.e, s.f, s.g)), k);
    Plus512(Add64(Add64(Add64(s.h, BigSigma1Of512(s.e)), Choose(s.e, s.f, s.g)), k), w);
  }

  lemma SecondSum512(s: Trace)
    requires AreWords(64, s)
    ensures IsWord(64, Second512(s))
    ensures Num(Second512(s))
         == Plus(SHA512, SigmaWord(SHA512, SHA512.bigSigma0, Num(s.a)), Maj(SHA512, Num(s.a), Num(s.b), Num(s.c)))
  {
    hide Num, Add64, Plus, SigmaWord, Maj, Majority, BigSigma0Of512, IsWord;
    BigSigma0Word512(s.a);
    ChoiceWord(SHA512, s.a, s.b, s.c);
    Plus512(BigSigma0Of512(s.a), Majority(s.a, s.b, s.c));
  }

  lemma NextWord512(block: seq<nat>, t: nat, w: Window)
    requires WordsAre(SHA512, block, t, w)
    ensures WordIs(SHA512, block, t + 16, Behind512(w))
  {
    hide Num, Add64, Plus, SigmaWord, Sigma0Of512, Sigma1Of512, IsWord, WordsAre;
    WordsUsed(SHA512, block, t, w);
    Sigma0Word512(w.w1);
    Sigma1Word512(w.w14);
    Plus512(Sigma1Of512(w.w14), w.w9);
    Plus512(Add64(Sigma1Of512(w.w14), w.w9), Sigma0Of512(w.w1));
    Plus512(Add64(Add64(Sigma1Of512(w.w14), w.w9), Sigma0Of512(w.w1)), w.w0);
  }

  /** The next sixteen words, with the sigma functions in the sum for the last one. */
  lemma Slide512(block: seq<nat>, t: nat, w: Window, s1: bv64, s0: bv64, x: bv64) returns (next: Window)
    requires WordsAre(SHA512, block, t, w) && Sigma1Of512(w.w14) == s1 && Sigma0Of512(w.w1) == s0
    requires Add64(Add64(Add64(s1, w.w9), s0), w.w0) == x
    ensures WordsAre(SHA512, block, t + 1, next) && next == Slid(w, x)
  {
    hide WordIs, WordsAre, Add64, Sigma0Of512, Sigma1Of512;
    next := Slid(w, x);
    NextWord512(block, t, w);
    WindowSlides(SHA512, block, t, w, x);
  }

  /** One round more, with the first sum and the new values of the first and the fifth variable. */
  lemma Up512(block: seq<nat>, t: nat, s: Trace, k: bv64, w: bv64, t0: bv64, t1: bv64, a: bv64, e: bv64)
    returns (next: Trace)
    requires After(SHA512, block, t, s) && ConstantIs(SHA512, t, k) && WordIs(SHA512, block, t, w)
    requires Add64(Add64(Add64(s.h, BigSigma1Of512(s.e)), Choose(s.e, s.f, s.g)), k) == t0 && Add64(t0, w) == t1
    requires Add64(t1, Second512(s)) == a && Add64(s.d, t1) == e
    ensures After(SHA512, block, t + 1, next) && next == Trace(a, s.a, s.b, s.c, e, s.e, s.f, s.g)
  {
    hide Num, Add64, BigSigma1Of512, Choose, Plus, SigmaWord, Ch, Maj, Second512, IsWord, Rounds, Schedule;
    next := Trace(a, s.a, s.b, s.c, e, s.e, s.f, s.g);
    FirstSum512(s, k, w);
    SecondSum512(s);
    Plus512(First512(s, k, w), Second512(s));
    Plus512(s.d, First512(s, k, w));
    RoundsNext(SHA512, block, t, Numbers(s), k, Num(w));
  }

  /** The sums with the initial hash value. */
  function Summed512(h: Trace, s: Trace): Trace
  {
    Trace(Add64(h.a, s.a), Add64(h.b, s.b), Add64(h.c, s.c), Add64(h.d, s.d),
          Add64(h.e, s.e), Add64(h.f, s.f), Add64(h.g, s.g), Add64(h.h, s.h))
  }

  lemma SummedNumbers512(h: Trace, s: Trace)
    requires AreWords(64, h) && AreWords(64, s)
    ensures AddStates(SHA512, Numbers(h), Numbers(s)) == Numbers(Summed512(h, s))
  {
    hide Num, Add64, Plus, IsWord;
    Plus512(h.a, s.a);
    Plus512(h.b, s.b);
    Plus512(h.c, s.c);
    Plus512(h.d, s.d);
    Plus512(h.e, s.e);
    Plus512(h.f, s.f);
    Plus512(h.g, s.g);
    Plus512(h.h, s.h);
  }
}
