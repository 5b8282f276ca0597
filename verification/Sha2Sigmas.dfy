// What the sigma functions of the two variants do to each bit (sections 4.1.2 and 4.1.3 of FIPS 180-4).
module Sha2Sigmas {
  import opened Bits
  import opened Sha2
  import opened Sha2Variants

  lemma RotatedAt(b: seq<bool>, y: nat, i: nat)
    requires 0 < y <= |b| && i < |b|
    ensures Rotr(b, y)[i] == b[(i + (|b| - y)) % |b|]
    ensures Shr(b, y)[i] == (i >= y && b[(i + (|b| - y)) % |b|])
  {
    if i < y {
      DivModUnique(i + (|b| - y), |b|, 0, i + (|b| - y));
    } else {
      DivModUnique(i + (|b| - y), |b|, 1, i - y);
    }
  }

  lemma SigmaAt(s: Sigma, b: seq<bool>, i: nat)
    requires 0 < s.first <= |b| && 0 < s.second <= |b| && 0 < s.third <= |b| && i < |b|
    ensures SigmaBits(s, b)[i]
         == Xor(Xor(b[(i + (|b| - s.first)) % |b|], b[(i + (|b| - s.second)) % |b|]),
                (s.shift ==> i >= s.third) && b[(i + (|b| - s.third)) % |b|])
  {
    hide Rotr, Shr;
    RotatedAt(b, s.first, i);
    RotatedAt(b, s.second, i);
    RotatedAt(b, s.third, i);
  }

  /** Bit i of the four functions of SHA-256, with bit 0 the most significant one. */
  lemma SigmasOf256(b: seq<bool>, i: nat)
    requires |b| == 32 && i < 32
    ensures SigmaBits(SHA256.bigSigma0, b)[i]
         == ((b[(i + 30) % 32] != b[(i + 19) % 32]) != b[(i + 10) % 32])
    ensures SigmaBits(SHA256.bigSigma1, b)[i]
         == ((b[(i + 26) % 32] != b[(i + 21) % 32]) != b[(i + 7) % 32])
    ensures SigmaBits(SHA256.sigma0, b)[i]
         == ((b[(i + 25) % 32] != b[(i + 14) % 32]) != (i >= 3 && b[(i + 29) % 32]))
    ensures SigmaBits(SHA256.sigma1, b)[i]
         == ((b[(i + 15) % 32] != b[(i + 13) % 32]) != (i >= 10 && b[(i + 22) % 32]))
  {
    SigmaAt(SHA256.bigSigma0, b, i);
    SigmaAt(SHA256.bigSigma1, b, i);
    SigmaAt(SHA256.sigma0, b, i);
    SigmaAt(SHA256.sigma1, b, i);
  }

  /** Bit i of the four functions of SHA-512, with bit 0 the most significant one. */
  lemma SigmasOf512(b: seq<bool>, i: nat)
    requires |b| == 64 && i < 64
    ensures SigmaBits(SHA512.bigSigma0, b)[i]
         == ((b[(i + 36) % 64] != b[(i + 30) % 64]) != b[(i + 25) % 64])
    ensures SigmaBits(SHA512.bigSigma1, b)[i]
         == ((b[(i + 50) % 64] != b[(i + 46) % 64]) != b[(i + 23) % 64])
    ensures SigmaBits(SHA512.sigma0, b)[i]
         == ((b[(i + 63) % 64] != b[(i + 56) % 64]) != (i >= 7 && b[(i + 57) % 64]))
    ensures SigmaBits(SHA512.sigma1, b)[i]
         == ((b[(i + 45) % 64] != b[(i + 3) % 64]) != (i >= 6 && b[(i + 58) % 64]))
  {
    SigmaAt(SHA512.bigSigma0, b, i);
    SigmaAt(SHA512.bigSigma1, b, i);
    SigmaAt(SHA512.sigma0, b, i);
    SigmaAt(SHA512.sigma1, b, i);
  }
}
