// Where the tables come from: fractional parts of roots of the first primes (sections 4.2 and 5.3 of FIPS 180-4).
module Sha2Tables {
  import opened Circuit
  import opened Sha2
  import opened Sha2Variants

  const TWO64: nat := 0x1_0000_0000_0000_0000

  function Cube(x: nat): nat { x * x * x }

  function Square(x: nat): nat { x * x }

  /** k consists of the first 64 bits of the fractional part of the cube root of p, whose integer part is c. */
  predicate CubeRootBits(p: nat, c: nat, k: nat)
  {
    k < TWO64 && Cube(c * TWO64 + k) <= p * Cube(TWO64) < Cube(c * TWO64 + k + 1)
  }

  predicate SquareRootBits(p: nat, c: nat, k: nat)
  {
    k < TWO64 && Square(c * TWO64 + k) <= p * Square(TWO64) < Square(c * TWO64 + k + 1)
  }

  // The first 80 primes, eight to a row, and the integer parts of their cube roots.

  const PRIMES_0: seq<nat> := [2, 3, 5, 7, 11, 13, 17, 19]
  const ROOTS_0: seq<nat> := [1, 1, 1, 1, 2, 2, 2, 2]
  const PRIMES_1: seq<nat> := [23, 29, 31, 37, 41, 43, 47, 53]
  const ROOTS_1: seq<nat> := [2, 3, 3, 3, 3, 3, 3, 3]
  const PRIMES_2: seq<nat> := [59, 61, 67, 71, 73, 79, 83, 89]
  const ROOTS_2: seq<nat> := [3, 3, 4, 4, 4, 4, 4, 4]
  const PRIMES_3: seq<nat> := [97, 101, 103, 107, 109, 113, 127, 131]
  const ROOTS_3: seq<nat> := [4, 4, 4, 4, 4, 4, 5, 5]
  const PRIMES_4: seq<nat> := [137, 139, 149, 151, 157, 163, 167, 173]
  const ROOTS_4: seq<nat> := [5, 5, 5, 5, 5, 5, 5, 5]
  const PRIMES_5: seq<nat> := [179, 181, 191, 193, 197, 199, 211, 223]
  const ROOTS_5: seq<nat> := [5, 5, 5, 5, 5, 5, 5, 6]
  const PRIMES_6: seq<nat> := [227, 229, 233, 239, 241, 251, 257, 263]
  const ROOTS_6: seq<nat> := [6, 6, 6, 6, 6, 6, 6, 6]
  const PRIMES_7: seq<nat> := [269, 271, 277, 281, 283, 293, 307, 311]
  const ROOTS_7: seq<nat> := [6, 6, 6, 6, 6, 6, 6, 6]
  const PRIMES_8: seq<nat> := [313, 317, 331, 337, 347, 349, 353, 359]
  const ROOTS_8: seq<nat> := [6, 6, 6, 6, 7, 7, 7, 7]
  const PRIMES_9: seq<nat> := [367, 373, 379, 383, 389, 397, 401, 409]
  const ROOTS_9: seq<nat> := [7, 7, 7, 7, 7, 7, 7, 7]

  const PRIMES: seq<nat> := PRIMES_0 + PRIMES_1 + PRIMES_2 + PRIMES_3 + PRIMES_4 +
                            PRIMES_5 + PRIMES_6 + PRIMES_7 + PRIMES_8 + PRIMES_9
  const ROOTS: seq<nat> := ROOTS_0 + ROOTS_1 + ROOTS_2 + ROOTS_3 + ROOTS_4 +
                           ROOTS_5 + ROOTS_6 + ROOTS_7 + ROOTS_8 + ROOTS_9

  predicate AllCubeRoots(p: seq<nat>, c: seq<nat>, k: seq<nat>)
  {
    |p| == |c| == |k| && forall i :: 0 <= i < |p| ==> CubeRootBits(p[i], c[i], k[i])
  }

  /** `h` lists the upper halves of the first words of `k`. */
  predicate UpperHalves(h: seq<nat>, k: seq<nat>)
  {
    |h| <= |k| && forall i :: 0 <= i < |h| ==> h[i] == k[i] / TWO32
  }

  lemma RootsConcat(p: seq<nat>, c: seq<nat>, k: seq<nat>, p': seq<nat>, c': seq<nat>, k': seq<nat>)
    requires AllCubeRoots(p, c, k) && AllCubeRoots(p', c', k')
    ensures AllCubeRoots(p + p', c + c', k + k')
  {
    hide CubeRootBits;
  }

  lemma HalvesConcat(h: seq<nat>, k: seq<nat>, h': seq<nat>, k': seq<nat>)
    requires |h| == |k| && UpperHalves(h, k) && UpperHalves(h', k')
    ensures UpperHalves(h + h', k + k')
  {
  }

  lemma FirstHalf0()
    ensures CubeRootBits(PRIMES_0[0], ROOTS_0[0], K512_0[0]) && CubeRootBits(PRIMES_0[1], ROOTS_0[1], K512_0[1])
    ensures CubeRootBits(PRIMES_0[2], ROOTS_0[2], K512_0[2]) && CubeRootBits(PRIMES_0[3], ROOTS_0[3], K512_0[3])
  {
  }

  lemma SecondHalf0()
    ensures CubeRootBits(PRIMES_0[4], ROOTS_0[4], K512_0[4]) && CubeRootBits(PRIMES_0[5], ROOTS_0[5], K512_0[5])
    ensures CubeRootBits(PRIMES_0[6], ROOTS_0[6], K512_0[6]) && CubeRootBits(PRIMES_0[7], ROOTS_0[7], K512_0[7])
  {
  }

  lemma Row0()
    ensures AllCubeRoots(PRIMES_0, ROOTS_0, K512_0)
  {
    hide CubeRootBits;
    FirstHalf0();
    SecondHalf0();
  }

  lemma FirstHalf1()
    ensures CubeRootBits(PRIMES_1[0], ROOTS_1[0], K512_1[0]) && CubeRootBits(PRIMES_1[1], ROOTS_1[1], K512_1[1])
    ensures CubeRootBits(PRIMES_1[2], ROOTS_1[2], K512_1[2]) && CubeRootBits(PRIMES_1[3], ROOTS_1[3], K512_1[3])
  {
  }

  lemma SecondHalf1()
    ensures CubeRootBits(PRIMES_1[4], ROOTS_1[4], K512_1[4]) && CubeRootBits(PRIMES_1[5], ROOTS_1[5], K512_1[5])
    ensures CubeRootBits(PRIMES_1[6], ROOTS_1[6], K512_1[6]) && CubeRootBits(PRIMES_1[7], ROOTS_1[7], K512_1[7])
  {
  }

  lemma Row1()
    ensures AllCubeRoots(PRIMES_1, ROOTS_1, K512_1)
  {
    hide CubeRootBits;
    FirstHalf1();
    SecondHalf1();
  }

  lemma FirstHalf2()
    ensures CubeRootBits(PRIMES_2[0], ROOTS_2[0], K512_2[0]) && CubeRootBits(PRIMES_2[1], ROOTS_2[1], K512_2[1])
    ensures CubeRootBits(PRIMES_2[2], ROOTS_2[2], K512_2[2]) && CubeRootBits(PRIMES_2[3], ROOTS_2[3], K512_2[3])
  {
  }

  lemma SecondHalf2()
    ensures CubeRootBits(PRIMES_2[4], ROOTS_2[4], K512_2[4]) && CubeRootBits(PRIMES_2[5], ROOTS_2[5], K512_2[5])
    ensures CubeRootBits(PRIMES_2[6], ROOTS_2[6], K512_2[6]) && CubeRootBits(PRIMES_2[7], ROOTS_2[7], K512_2[7])
  {
  }

  lemma Row2()
    ensures AllCubeRoots(PRIMES_2, ROOTS_2, K512_2)
  {
    hide CubeRootBits;
    FirstHalf2();
    SecondHalf2();
  }

  lemma FirstHalf3()
    ensures CubeRootBits(PRIMES_3[0], ROOTS_3[0], K512_3[0]) && CubeRootBits(PRIMES_3[1], ROOTS_3[1], K512_3[1])
    ensures CubeRootBits(PRIMES_3[2], ROOTS_3[2], K512_3[2]) && CubeRootBits(PRIMES_3[3], ROOTS_3[3], K512_3[3])
  {
  }

  lemma SecondHalf3()
    ensures CubeRootBits(PRIMES_3[4], ROOTS_3[4], K512_3[4]) && CubeRootBits(PRIMES_3[5], ROOTS_3[5], K512_3[5])
    ensures CubeRootBits(PRIMES_3[6], ROOTS_3[6], K512_3[6]) && CubeRootBits(PRIMES_3[7], ROOTS_3[7], K512_3[7])
  {
  }

  lemma Row3()
    ensures AllCubeRoots(PRIMES_3, ROOTS_3, K512_3)
  {
    hide CubeRootBits;
    FirstHalf3();
    SecondHalf3();
  }

  lemma FirstHalf4()
    ensures CubeRootBits(PRIMES_4[0], ROOTS_4[0], K512_4[0]) && CubeRootBits(PRIMES_4[1], ROOTS_4[1], K512_4[1])
    ensures CubeRootBits(PRIMES_4[2], ROOTS_4[2], K512_4[2]) && CubeRootBits(PRIMES_4[3], ROOTS_4[3], K512_4[3])
  {
  }

  lemma SecondHalf4()
    ensures CubeRootBits(PRIMES_4[4], ROOTS_4[4], K512_4[4]) && CubeRootBits(PRIMES_4[5], ROOTS_4[5], K512_4[5])
    ensures CubeRootBits(PRIMES_4[6], ROOTS_4[6], K512_4[6]) && CubeRootBits(PRIMES_4[7], ROOTS_4[7], K512_4[7])
  {
  }

  lemma Row4()
    ensures AllCubeRoots(PRIMES_4, ROOTS_4, K512_4)
  {
    hide CubeRootBits;
    FirstHalf4();
    SecondHalf4();
  }

  lemma FirstHalf5()
    ensures CubeRootBits(PRIMES_5[0], ROOTS_5[0], K512_5[0]) && CubeRootBits(PRIMES_5[1], ROOTS_5[1], K512_5[1])
    ensures CubeRootBits(PRIMES_5[2], ROOTS_5[2], K512_5[2]) && CubeRootBits(PRIMES_5[3], ROOTS_5[3], K512_5[3])
  {
  }

  lemma SecondHalf5()
    ensures CubeRootBits(PRIMES_5[4], ROOTS_5[4], K512_5[4]) && CubeRootBits(PRIMES_5[5], ROOTS_5[5], K512_5[5])
    ensures CubeRootBits(PRIMES_5[6], ROOTS_5[6], K512_5[6]) && CubeRootBits(PRIMES_5[7], ROOTS_5[7], K512_5[7])
  {
  }

  lemma Row5()
    ensures AllCubeRoots(PRIMES_5, ROOTS_5, K512_5)
  {
    hide CubeRootBits;
    FirstHalf5();
    SecondHalf5();
  }

  lemma FirstHalf6()
    ensures CubeRootBits(PRIMES_6[0], ROOTS_6[0], K512_6[0]) && CubeRootBits(PRIMES_6[1], ROOTS_6[1], K512_6[1])
    ensures CubeRootBits(PRIMES_6[2], ROOTS_6[2], K512_6[2]) && CubeRootBits(PRIMES_6[3], ROOTS_6[3], K512_6[3])
  {
  }

  lemma SecondHalf6()
    ensures CubeRootBits(PRIMES_6[4], ROOTS_6[4], K512_6[4]) && CubeRootBits(PRIMES_6[5], ROOTS_6[5], K512_6[5])
    ensures CubeRootBits(PRIMES_6[6], ROOTS_6[6], K512_6[6]) && CubeRootBits(PRIMES_6[7], ROOTS_6[7], K512_6[7])
  {
  }

  lemma Row6()
    ensures AllCubeRoots(PRIMES_6, ROOTS_6, K512_6)
  {
    hide CubeRootBits;
    FirstHalf6();
    SecondHalf6();
  }

  lemma FirstHalf7()
    ensures CubeRootBits(PRIMES_7[0], ROOTS_7[0], K512_7[0]) && CubeRootBits(PRIMES_7[1], ROOTS_7[1], K512_7[1])
    ensures CubeRootBits(PRIMES_7[2], ROOTS_7[2], K512_7[2]) && CubeRootBits(PRIMES_7[3], ROOTS_7[3], K512_7[3])
  {
  }

  lemma SecondHalf7()
    ensures CubeRootBits(PRIMES_7[4], ROOTS_7[4], K512_7[4]) && CubeRootBits(PRIMES_7[5], ROOTS_7[5], K512_7[5])
    ensures CubeRootBits(PRIMES_7[6], ROOTS_7[6], K512_7[6]) && CubeRootBits(PRIMES_7[7], ROOTS_7[7], K512_7[7])
  {
  }

  lemma Row7()
    ensures AllCubeRoots(PRIMES_7, ROOTS_7, K512_7)
  {
    hide CubeRootBits;
    FirstHalf7();
    SecondHalf7();
  }

  lemma FirstHalf8()
    ensures CubeRootBits(PRIMES_8[0], ROOTS_8[0], K512_8[0]) && CubeRootBits(PRIMES_8[1], ROOTS_8[1], K512_8[1])
    ensures CubeRootBits(PRIMES_8[2], ROOTS_8[2], K512_8[2]) && CubeRootBits(PRIMES_8[3], ROOTS_8[3], K512_8[3])
  {
  }

  lemma SecondHalf8()
    ensures CubeRootBits(PRIMES_8[4], ROOTS_8[4], K512_8[4]) && CubeRootBits(PRIMES_8[5], ROOTS_8[5], K512_8[5])
    ensures CubeRootBits(PRIMES_8[6], ROOTS_8[6], K512_8[6]) && CubeRootBits(PRIMES_8[7], ROOTS_8[7], K512_8[7])
  {
  }

  lemma Row8()
    ensures AllCubeRoots(PRIMES_8, ROOTS_8, K512_8)
  {
    hide CubeRootBits;
    FirstHalf8();
    SecondHalf8();
  }

  lemma FirstHalf9()
    ensures CubeRootBits(PRIMES_9[0], ROOTS_9[0], K512_9[0]) && CubeRootBits(PRIMES_9[1], ROOTS_9[1], K512_9[1])
    ensures CubeRootBits(PRIMES_9[2], ROOTS_9[2], K512_9[2]) && CubeRootBits(PRIMES_9[3], ROOTS_9[3], K512_9[3])
  {
  }

  lemma SecondHalf9()
    ensures CubeRootBits(PRIMES_9[4], ROOTS_9[4], K512_9[4]) && CubeRootBits(PRIMES_9[5], ROOTS_9[5], K512_9[5])
    ensures CubeRootBits(PRIMES_9[6], ROOTS_9[6], K512_9[6]) && CubeRootBits(PRIMES_9[7], ROOTS_9[7], K512_9[7])
  {
  }

  lemma Row9()
    ensures AllCubeRoots(PRIMES_9, ROOTS_9, K512_9)
  {
    hide CubeRootBits;
    FirstHalf9();
    SecondHalf9();
  }

  lemma Halves()
    ensures UpperHalves(K256_0, K512_0) && UpperHalves(K256_1, K512_1) && UpperHalves(K256_2, K512_2) &&
            UpperHalves(K256_3, K512_3)
    ensures UpperHalves(K256_4, K512_4) && UpperHalves(K256_5, K512_5) && UpperHalves(K256_6, K512_6) &&
            UpperHalves(K256_7, K512_7)
  {
  }

  /**
   * The constants of SHA-512 are the first 64 bits of the fractional parts of the cube roots of the first 80 primes.
   */
  lemma K512FromCubeRoots()
    ensures AllCubeRoots(PRIMES, ROOTS, K512)
  {
    Row0();
    Row1();
    Row2();
    Row3();
    Row4();
    Row5();
    Row6();
    Row7();
    Row8();
    Row9();
    hide AllCubeRoots, UpperHalves;
    var p, c, k := PRIMES_0, ROOTS_0, K512_0;
    RootsConcat(p, c, k, PRIMES_1, ROOTS_1, K512_1);
    p, c, k := p + PRIMES_1, c + ROOTS_1, k + K512_1;
    RootsConcat(p, c, k, PRIMES_2, ROOTS_2, K512_2);
    p, c, k := p + PRIMES_2, c + ROOTS_2, k + K512_2;
    RootsConcat(p, c, k, PRIMES_3, ROOTS_3, K512_3);
    p, c, k := p + PRIMES_3, c + ROOTS_3, k + K512_3;
    RootsConcat(p, c, k, PRIMES_4, ROOTS_4, K512_4);
    p, c, k := p + PRIMES_4, c + ROOTS_4, k + K512_4;
    RootsConcat(p, c, k, PRIMES_5, ROOTS_5, K512_5);
    p, c, k := p + PRIMES_5, c + ROOTS_5, k + K512_5;
    RootsConcat(p, c, k, PRIMES_6, ROOTS_6, K512_6);
    p, c, k := p + PRIMES_6, c + ROOTS_6, k + K512_6;
    RootsConcat(p, c, k, PRIMES_7, ROOTS_7, K512_7);
    p, c, k := p + PRIMES_7, c + ROOTS_7, k + K512_7;
    RootsConcat(p, c, k, PRIMES_8, ROOTS_8, K512_8);
    p, c, k := p + PRIMES_8, c + ROOTS_8, k + K512_8;
    RootsConcat(p, c, k, PRIMES_9, ROOTS_9, K512_9);
    p, c, k := p + PRIMES_9, c + ROOTS_9, k + K512_9;
  }

  /** The constants of SHA-256 are the upper halves of the first 64 of them. */
  lemma K256FromK512()
    ensures UpperHalves(K256, K512)
  {
    Halves();
    hide AllCubeRoots;
    var h, k := K256_0, K512_0;
    HalvesConcat(h, k, K256_1, K512_1);
    h, k := h + K256_1, k + K512_1;
    HalvesConcat(h, k, K256_2, K512_2);
    h, k := h + K256_2, k + K512_2;
    HalvesConcat(h, k, K256_3, K512_3);
    h, k := h + K256_3, k + K512_3;
    HalvesConcat(h, k, K256_4, K512_4);
    h, k := h + K256_4, k + K512_4;
    HalvesConcat(h, k, K256_5, K512_5);
    h, k := h + K256_5, k + K512_5;
    HalvesConcat(h, k, K256_6, K512_6);
    h, k := h + K256_6, k + K512_6;
    HalvesConcat(h, k, K256_7, K512_7);
    h, k := h + K256_7, k + K512_7;
    HalvesConcat(h, k, [], K512_8 + K512_9);
    assert h + [] == K256 && k + (K512_8 + K512_9) == K512;
  }

  /** The initial hash values come from the square roots of the first eight primes. */
  lemma InitialHashFromSquareRoots()
    ensures SquareRootBits(2, 1, H512.a) && SquareRootBits(3, 1, H512.b) && SquareRootBits(5, 2, H512.c) &&
            SquareRootBits(7, 2, H512.d)
    ensures SquareRootBits(11, 3, H512.e) && SquareRootBits(13, 3, H512.f) && SquareRootBits(17, 4, H512.g) &&
            SquareRootBits(19, 4, H512.h)
    ensures H256 == Working(H512.a / TWO32, H512.b / TWO32, H512.c / TWO32, H512.d / TWO32,
                            H512.e / TWO32, H512.f / TWO32, H512.g / TWO32, H512.h / TWO32)
  {
  }
}
