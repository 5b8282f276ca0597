// The two members of the family that the repository has circuits for.
module Sha2Variants {
  import opened Bits
  import opened Circuit
  import opened CircuitWords
  import opened Sha2
  import opened Sha2Circuit

  // Round constants, eight to a row.

  const K256_0: seq<nat> := [0x428a2f98, 0x71374491, 0xb5c0fbcf, 0xe9b5dba5,
                             0x3956c25b, 0x59f111f1, 0x923f82a4, 0xab1c5ed5]
  const K256_1: seq<nat> := [0xd807aa98, 0x12835b01, 0x243185be, 0x550c7dc3,
                             0x72be5d74, 0x80deb1fe, 0x9bdc06a7, 0xc19bf174]
  const K256_2: seq<nat> := [0xe49b69c1, 0xefbe4786, 0x0fc19dc6, 0x240ca1cc,
                             0x2de92c6f, 0x4a7484aa, 0x5cb0a9dc, 0x76f988da]
  const K256_3: seq<nat> := [0x983e5152, 0xa831c66d, 0xb00327c8, 0xbf597fc7,
                             0xc6e00bf3, 0xd5a79147, 0x06ca6351, 0x14292967]
  const K256_4: seq<nat> := [0x27b70a85, 0x2e1b2138, 0x4d2c6dfc, 0x53380d13,
                             0x650a7354, 0x766a0abb, 0x81c2c92e, 0x92722c85]
  const K256_5: seq<nat> := [0xa2bfe8a1, 0xa81a664b, 0xc24b8b70, 0xc76c51a3,
                             0xd192e819, 0xd6990624, 0xf40e3585, 0x106aa070]
  const K256_6: seq<nat> := [0x19a4c116, 0x1e376c08, 0x2748774c, 0x34b0bcb5,
                             0x391c0cb3, 0x4ed8aa4a, 0x5b9cca4f, 0x682e6ff3]
  const K256_7: seq<nat> := [0x748f82ee, 0x78a5636f, 0x84c87814, 0x8cc70208,
                             0x90befffa, 0xa4506ceb, 0xbef9a3f7, 0xc67178f2]

  const K256: seq<nat> := K256_0 + K256_1 + K256_2 + K256_3 + K256_4 + K256_5 + K256_6 + K256_7

  const H256: Working := Working(0x6a09e667, 0xbb67ae85, 0x3c6ef372, 0xa54ff53a,
                                 0x510e527f, 0x9b05688c, 0x1f83d9ab, 0x5be0cd19)

  const K512_0: seq<nat> := [0x428a2f98d728ae22, 0x7137449123ef65cd, 0xb5c0fbcfec4d3b2f, 0xe9b5dba58189dbbc,
                            0x3956c25bf348b538, 0x59f111f1b605d019, 0x923f82a4af194f9b, 0xab1c5ed5da6d8118]
  const K512_1: seq<nat> := [0xd807aa98a3030242, 0x12835b0145706fbe, 0x243185be4ee4b28c, 0x550c7dc3d5ffb4e2,
                            0x72be5d74f27b896f, 0x80deb1fe3b1696b1, 0x9bdc06a725c71235, 0xc19bf174cf692694]
  const K512_2: seq<nat> := [0xe49b69c19ef14ad2, 0xefbe4786384f25e3, 0x0fc19dc68b8cd5b5, 0x240ca1cc77ac9c65,
                            0x2de92c6f592b0275, 0x4a7484aa6ea6e483, 0x5cb0a9dcbd41fbd4, 0x76f988da831153b5]
  const K512_3: seq<nat> := [0x983e5152ee66dfab, 0xa831c66d2db43210, 0xb00327c898fb213f, 0xbf597fc7beef0ee4,
                            0xc6e00bf33da88fc2, 0xd5a79147930aa725, 0x06ca6351e003826f, 0x142929670a0e6e70]
  const K512_4: seq<nat> := [0x27b70a8546d22ffc, 0x2e1b21385c26c926, 0x4d2c6dfc5ac42aed, 0x53380d139d95b3df,
                            0x650a73548baf63de, 0x766a0abb3c77b2a8, 0x81c2c92e47edaee6, 0x92722c851482353b]
  const K512_5: seq<nat> := [0xa2bfe8a14cf10364, 0xa81a664bbc423001, 0xc24b8b70d0f89791, 0xc76c51a30654be30,
                            0xd192e819d6ef5218, 0xd69906245565a910, 0xf40e35855771202a, 0x106aa07032bbd1b8]
  const K512_6: seq<nat> := [0x19a4c116b8d2d0c8, 0x1e376c085141ab53, 0x2748774cdf8eeb99, 0x34b0bcb5e19b48a8,
                            0x391c0cb3c5c95a63, 0x4ed8aa4ae3418acb, 0x5b9cca4f7763e373, 0x682e6ff3d6b2b8a3]
  const K512_7: seq<nat> := [0x748f82ee5defb2fc, 0x78a5636f43172f60, 0x84c87814a1f0ab72, 0x8cc702081a6439ec,
                            0x90befffa23631e28, 0xa4506cebde82bde9, 0xbef9a3f7b2c67915, 0xc67178f2e372532b]
  const K512_8: seq<nat> := [0xca273eceea26619c, 0xd186b8c721c0c207, 0xeada7dd6cde0eb1e, 0xf57d4f7fee6ed178,
                            0x06f067aa72176fba, 0x0a637dc5a2c898a6, 0x113f9804bef90dae, 0x1b710b35131c471b]
  const K512_9: seq<nat> := [0x28db77f523047d84, 0x32caab7b40c72493, 0x3c9ebe0a15c9bebc, 0x431d67c49c100d4c,
                            0x4cc5d4becb3e42b6, 0x597f299cfc657e2a, 0x5fcb6fab3ad6faec, 0x6c44198c4a475817]

  const K512: seq<nat> := K512_0 + K512_1 + K512_2 + K512_3 + K512_4 +
                          K512_5 + K512_6 + K512_7 + K512_8 + K512_9

  const H512: Working := Working(0x6a09e667f3bcc908, 0xbb67ae8584caa73b, 0x3c6ef372fe94f82b, 0xa54ff53a5f1d36f1,
                                 0x510e527fade682d1, 0x9b05688c2b3e6c1f, 0x1f83d9abfb41bd6b, 0x5be0cd19137e2179)

  /** plonky2-sha256: one limb per word. */
  const SHA256: Variant := Variant(1, 64, K256, H256,
                                   Sigma(2, 13, 22, false), Sigma(6, 11, 25, false),
                                   Sigma(7, 18, 3, true), Sigma(17, 19, 10, true))

  /** plonky2-sha512: two limbs per word. */
  const SHA512: Variant := Variant(2, 80, K512, H512,
                                   Sigma(28, 34, 39, false), Sigma(14, 18, 41, false),
                                   Sigma(1, 8, 7, true), Sigma(19, 61, 6, true))

  /** All words of a table lie between the bounds. */
  predicate Within(table: seq<nat>, low: nat, high: nat)
  {
    forall i :: 0 <= i < |table| ==> low <= table[i] < high
  }

  lemma WithinConcat(a: seq<nat>, b: seq<nat>, low: nat, high: nat)
    requires Within(a, low, high) && Within(b, low, high)
    ensures Within(a + b, low, high)
  {
  }

  lemma Rows256()
    ensures Within(K256_0, 1, TWO32) && Within(K256_1, 1, TWO32) && Within(K256_2, 1, TWO32) && Within(K256_3, 1, TWO32)
    ensures Within(K256_4, 1, TWO32) && Within(K256_5, 1, TWO32) && Within(K256_6, 1, TWO32) && Within(K256_7, 1, TWO32)
  {
  }

  lemma Tables256()
    ensures |K256| == 64 && Within(K256, 1, TWO32)
  {
    Rows256();
    hide Within;
    WithinConcat(K256_0, K256_1, 1, TWO32);
    WithinConcat(K256_0 + K256_1, K256_2, 1, TWO32);
    WithinConcat(K256_0 + K256_1 + K256_2, K256_3, 1, TWO32);
    WithinConcat(K256_0 + K256_1 + K256_2 + K256_3, K256_4, 1, TWO32);
    WithinConcat(K256_0 + K256_1 + K256_2 + K256_3 + K256_4, K256_5, 1, TWO32);
    WithinConcat(K256_0 + K256_1 + K256_2 + K256_3 + K256_4 + K256_5, K256_6, 1, TWO32);
    WithinConcat(K256_0 + K256_1 + K256_2 + K256_3 + K256_4 + K256_5 + K256_6, K256_7, 1, TWO32);
  }

  lemma Rows512()
    ensures Within(K512_0, TWO32, TWO32 * TWO32) &&
            Within(K512_1, TWO32, TWO32 * TWO32) &&
            Within(K512_2, TWO32, TWO32 * TWO32) &&
            Within(K512_3, TWO32, TWO32 * TWO32) &&
            Within(K512_4, TWO32, TWO32 * TWO32)
    ensures Within(K512_5, TWO32, TWO32 * TWO32) &&
            Within(K512_6, TWO32, TWO32 * TWO32) &&
            Within(K512_7, TWO32, TWO32 * TWO32) &&
            Within(K512_8, TWO32, TWO32 * TWO32) &&
            Within(K512_9, TWO32, TWO32 * TWO32)
  {
  }

  lemma Tables512()
    ensures |K512| == 80 && Within(K512, TWO32, TWO32 * TWO32)
  {
    Rows512();
    hide Within;
    WithinConcat(K512_0, K512_1, TWO32, TWO32 * TWO32);
    WithinConcat(K512_0 + K512_1, K512_2, TWO32, TWO32 * TWO32);
    WithinConcat(K512_0 + K512_1 + K512_2, K512_3, TWO32, TWO32 * TWO32);
    WithinConcat(K512_0 + K512_1 + K512_2 + K512_3, K512_4, TWO32, TWO32 * TWO32);
    WithinConcat(K512_0 + K512_1 + K512_2 + K512_3 + K512_4, K512_5, TWO32, TWO32 * TWO32);
    WithinConcat(K512_0 + K512_1 + K512_2 + K512_3 + K512_4 + K512_5, K512_6, TWO32, TWO32 * TWO32);
    WithinConcat(K512_0 + K512_1 + K512_2 + K512_3 + K512_4 + K512_5 + K512_6, K512_7, TWO32, TWO32 * TWO32);
    WithinConcat(K512_0 + K512_1 + K512_2 + K512_3 + K512_4 + K512_5 + K512_6 + K512_7, K512_8, TWO32, TWO32 * TWO32);
    WithinConcat(K512_0 + K512_1 + K512_2 + K512_3 + K512_4 + K512_5 + K512_6 + K512_7 + K512_8, K512_9, TWO32,
                 TWO32 * TWO32);
  }

  lemma OneDigit(x: nat)
    requires 1 <= x < TWO32
    ensures FullWord(1, x)
  {
    assert x / TWO32 == 0 && Digits32(0) == [];
    assert Digits32(x) == [x];
  }

  lemma TwoDigits(x: nat)
    requires TWO32 <= x < TWO32 * TWO32
    ensures FullWord(2, x)
  {
    var high := x / TWO32;
    OneDigit(high);
    assert Digits32(high) == [high];
    assert Digits32(x) == [x % TWO32, high];
  }

  lemma FullTable(v: Variant)
    requires v == SHA256 || v == SHA512
    ensures forall i :: 0 <= i < |v.k| ==> FullWord(v.limbs, v.k[i]) && v.k[i] < Pow2(v.W())
  {
    Tables256();
    Tables512();
    PowerOfLimbs(v.limbs, 32);
    forall i | 0 <= i < |v.k|
      ensures FullWord(v.limbs, v.k[i]) && v.k[i] < Pow2(v.W())
    {
      if v.limbs == 1 {
        OneDigit(v.k[i]);
      } else {
        TwoDigits(v.k[i]);
      }
    }
  }

  lemma FullHash(v: Variant, x: nat)
    requires if v.limbs == 1 then 1 <= x < TWO32 else v.limbs == 2 && TWO32 <= x < TWO32 * TWO32
    ensures FullWord(v.limbs, x) && x < Pow2(v.W())
  {
    PowerOfLimbs(v.limbs, 32);
    if v.limbs == 1 {
      OneDigit(x);
    } else {
      TwoDigits(x);
    }
  }

  /** Every constant has exactly as many limbs as a word, so the assertions on the number of limbs never fail. */
  lemma VariantsValid(v: Variant)
    requires v == SHA256 || v == SHA512
    ensures v.Valid() && FullWords(v)
  {
    hide FullWord, Pow2;
    FullTable(v);
    Tables256();
    Tables512();
    FullHash(v, v.h.a);
    FullHash(v, v.h.b);
    FullHash(v, v.h.c);
    FullHash(v, v.h.d);
    FullHash(v, v.h.e);
    FullHash(v, v.h.f);
    FullHash(v, v.h.g);
    FullHash(v, v.h.h);
  }

  /** `make_circuits` of plonky2-sha256: it fails only for lengths that overflow 64 bits or leave 447 modulo 512. */
  method MakeSha256(builder: CircuitBuilder, length: nat) returns (ok: bool, message: seq<Wire>, digest: seq<Wire>)
    requires builder.Valid()
    modifies builder
    ensures ok <==> length + 576 < Pow2(64) && length % 512 != 447
    ensures ok ==> length <= |message| && builder.inputs == old(builder.inputs) + message[..length]
    ensures ok ==> ComputesDigest(SHA256, builder.gates, builder.inputs, message[..length], digest)
    ensures ok ==> Satisfies(builder.honest, builder.gates, builder.inputs)
    ensures ok ==> forall i :: 0 <= i < length ==>
            builder.honest(message[i]) == if builder.message(|old(builder.inputs)| + i) then 1 else 0
  {
    hide ComputesDigest, Pow2;
    VariantsValid(SHA256);
    ok, message, digest := MakeCircuits(builder, SHA256, length);
  }

  /** `make_circuits` of plonky2-sha512: it fails only for lengths that overflow 128 bits or leave 895 modulo 1024. */
  method MakeSha512(builder: CircuitBuilder, length: nat) returns (ok: bool, message: seq<Wire>, digest: seq<Wire>)
    requires builder.Valid()
    modifies builder
    ensures ok <==> length + 1152 < Pow2(128) && length % 1024 != 895
    ensures ok ==> length <= |message| && builder.inputs == old(builder.inputs) + message[..length]
    ensures ok ==> ComputesDigest(SHA512, builder.gates, builder.inputs, message[..length], digest)
    ensures ok ==> Satisfies(builder.honest, builder.gates, builder.inputs)
    ensures ok ==> forall i :: 0 <= i < length ==>
            builder.honest(message[i]) == if builder.message(|old(builder.inputs)| + i) then 1 else 0
  {
    hide ComputesDigest, Pow2;
    VariantsValid(SHA512);
    ok, message, digest := MakeCircuits(builder, SHA512, length);
  }
}
