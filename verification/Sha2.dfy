// The SHA-2 functions of FIPS 180-4, for words of 32 and of 64 bits.
module Sha2 {
  import opened Bits
  import opened BitStrings

  /** Amounts of a sigma function: two rotations, and a rotation or shift. */
  datatype Sigma = Sigma(first: nat, second: nat, third: nat, shift: bool)

  /** A member of the family; a word consists of `limbs` times 32 bits. */
  datatype Variant = Variant(limbs: nat, rounds: nat, k: seq<nat>, h: Working,
                             bigSigma0: Sigma, bigSigma1: Sigma, sigma0: Sigma, sigma1: Sigma)
  {
    function W(): nat { 32 * limbs }

    function BlockBits(): nat { 512 * limbs }

    function LengthBits(): nat { 64 * limbs }

    ghost predicate Valid()
    {
      && (limbs == 1 || limbs == 2) && 16 <= rounds == |k|
      && (forall i :: 0 <= i < |k| ==> k[i] < Pow2(W())) && h.Below(Pow2(W()))
      && Fits(bigSigma0) && Fits(bigSigma1) && Fits(sigma0) && Fits(sigma1)
    }

    predicate Fits(s: Sigma)
    {
      s.first <= W() && s.second <= W() && s.third <= W()
    }
  }

  /** The eight working variables, or the eight words of a hash value. */
  datatype Working = Working(a: nat, b: nat, c: nat, d: nat, e: nat, f: nat, g: nat, h: nat)
  {
    predicate Below(bound: nat)
    {
      a < bound && b < bound && c < bound && d < bound && e < bound && f < bound && g < bound && h < bound
    }
  }

  // ---- Operations on words (sections 3.2 and 4.1) ----

  function Xor(a: bool, b: bool): bool { a != b }

  /** Rotation to the right by y bits. */
  function Rotr(b: seq<bool>, y: nat): (r: seq<bool>)
    requires y <= |b|
    ensures |r| == |b|
  {
    b[|b| - y..] + b[..|b| - y]
  }

  function Shr(b: seq<bool>, y: nat): (r: seq<bool>)
    requires y <= |b|
    ensures |r| == |b|
  {
    seq(y, _ => false) + b[..|b| - y]
  }

  function Xor3(a: seq<bool>, b: seq<bool>, c: seq<bool>): (r: seq<bool>)
    requires |a| == |b| == |c|
    ensures |r| == |a|
  {
    seq(|a|, i requires 0 <= i < |a| => Xor(Xor(a[i], b[i]), c[i]))
  }

  function SigmaBits(s: Sigma, b: seq<bool>): (r: seq<bool>)
    requires s.first <= |b| && s.second <= |b| && s.third <= |b|
    ensures |r| == |b|
  {
    Xor3(Rotr(b, s.first), Rotr(b, s.second), if s.shift then Shr(b, s.third) else Rotr(b, s.third))
  }

  function ChBits(a: seq<bool>, b: seq<bool>, c: seq<bool>): (r: seq<bool>)
    requires |a| == |b| == |c|
    ensures |r| == |a|
  {
    seq(|a|, i requires 0 <= i < |a| => Xor(a[i] && b[i], !a[i] && c[i]))
  }

  function MajBits(a: seq<bool>, b: seq<bool>, c: seq<bool>): (r: seq<bool>)
    requires |a| == |b| == |c|
    ensures |r| == |a|
  {
    seq(|a|, i requires 0 <= i < |a| => Xor(Xor(a[i] && b[i], a[i] && c[i]), b[i] && c[i]))
  }

  function SigmaWord(v: Variant, s: Sigma, x: nat): nat
  {
    if v.Fits(s) then Nat(SigmaBits(s, ToBits(v.W(), x))) else 0
  }

  function Ch(v: Variant, a: nat, b: nat, c: nat): nat
  {
    Nat(ChBits(ToBits(v.W(), a), ToBits(v.W(), b), ToBits(v.W(), c)))
  }

  function Maj(v: Variant, a: nat, b: nat, c: nat): nat
  {
    Nat(MajBits(ToBits(v.W(), a), ToBits(v.W(), b), ToBits(v.W(), c)))
  }

  /** Addition modulo 2^W. */
  function Plus(v: Variant, a: nat, b: nat): nat
  {
    (a + b) % Pow2(v.W())
  }

  // ---- Hash computation (sections 6.2.2 and 6.4.2) ----

  /** Word t of the message schedule of a block of 16 words. */
  function Schedule(v: Variant, block: seq<nat>, t: nat): nat
    requires |block| == 16
  {
    if t < 16 then block[t]
    else NextWord(v, Schedule(v, block, t - 2), Schedule(v, block, t - 7), Schedule(v, block, t - 15),
                  Schedule(v, block, t - 16))
  }

  function NextWord(v: Variant, back2: nat, back7: nat, back15: nat, back16: nat): nat
  {
    Plus(v, Plus(v, Plus(v, SigmaWord(v, v.sigma1, back2), back7), SigmaWord(v, v.sigma0, back15)), back16)
  }

  /** One round on the working variables. */
  function Round(v: Variant, s: Working, k: nat, w: nat): Working
  {
    var t1 := Plus(v, Plus(v, Plus(v, Plus(v, s.h, SigmaWord(v, v.bigSigma1, s.e)), Ch(v, s.e, s.f, s.g)), k), w);
    var t2 := Plus(v, SigmaWord(v, v.bigSigma0, s.a), Maj(v, s.a, s.b, s.c));
    Working(Plus(v, t1, t2), s.a, s.b, s.c, Plus(v, s.d, t1), s.e, s.f, s.g)
  }

  /** The working variables after t rounds. */
  function Rounds(v: Variant, s: Working, block: seq<nat>, t: nat): Working
    requires |block| == 16 && t <= |v.k|
  {
    if t == 0 then s else Round(v, Rounds(v, s, block, t - 1), v.k[t - 1], Schedule(v, block, t - 1))
  }

  function AddStates(v: Variant, s: Working, t: Working): Working
  {
    Working(Plus(v, s.a, t.a), Plus(v, s.b, t.b), Plus(v, s.c, t.c), Plus(v, s.d, t.d),
            Plus(v, s.e, t.e), Plus(v, s.f, t.f), Plus(v, s.g, t.g), Plus(v, s.h, t.h))
  }

  function HashBlock(v: Variant, s: Working, block: seq<nat>): Working
    requires |block| == 16
  {
    AddStates(v, s, Rounds(v, s, block, |v.k|))
  }

  /** The words of a bit string. */
  function Words(w: nat, b: seq<bool>): seq<nat>
    requires w > 0
  {
    if |b| < w then [] else [Nat(b[..w])] + Words(w, b[w..])
  }

  /** The hash value after all blocks of a padded message, starting from s. */
  function HashBlocks(v: Variant, s: Working, padded: seq<bool>): Working
    requires v.limbs > 0
    decreases |padded|
  {
    if |padded| < v.BlockBits() then s
    else
      var block := Words(v.W(), padded[..v.BlockBits()]);
      if |block| == 16 then HashBlocks(v, HashBlock(v, s, block), padded[v.BlockBits()..]) else s
  }

  function StateBits(v: Variant, s: Working): seq<bool>
  {
    ToBits(v.W(), s.a) + ToBits(v.W(), s.b) + ToBits(v.W(), s.c) + ToBits(v.W(), s.d) +
    ToBits(v.W(), s.e) + ToBits(v.W(), s.f) + ToBits(v.W(), s.g) + ToBits(v.W(), s.h)
  }

  // ---- Padding (sections 5.1.1 and 5.1.2) ----

  /** A message of this length, a one bit, `zeros` zero bits and the length field fill whole blocks. */
  predicate Fills(v: Variant, length: nat, zeros: nat)
    requires v.limbs > 0
  {
    (length + 1 + zeros + v.LengthBits()) % v.BlockBits() == 0
  }

  function ZeroBits(v: Variant, length: nat): nat
    requires v.limbs > 0
  {
    var over := (length + 1 + v.LengthBits()) % v.BlockBits();
    if over == 0 then 0 else v.BlockBits() - over
  }

  /** The number of zero bits is the smallest that fills whole blocks. */
  lemma ZeroBitsSmallest(v: Variant, length: nat, zeros: nat)
    requires v.limbs == 1 || v.limbs == 2
    ensures Fills(v, length, ZeroBits(v, length))
    ensures Fills(v, length, zeros) ==> ZeroBits(v, length) <= zeros
  {
    if v.limbs == 1 {
    } else {
    }
  }

  function Repeated(b: bool, n: nat): (r: seq<bool>)
    ensures |r| == n
  {
    seq(n, _ => b)
  }

  /** What follows a message of this length: a one bit, zero bits, and the length. */
  function PaddingBits(v: Variant, length: nat): seq<bool>
    requires v.limbs > 0
  {
    [true] + Repeated(false, ZeroBits(v, length)) + ToBits(v.LengthBits(), length)
  }

  function Padding(v: Variant, message: seq<bool>): seq<bool>
    requires v.limbs > 0
  {
    message + PaddingBits(v, |message|)
  }

  /** The digest of a message, as a bit string. */
  function Digest(v: Variant, message: seq<bool>): seq<bool>
    requires v.limbs > 0
  {
    StateBits(v, HashBlocks(v, v.h, Padding(v, message)))
  }
}
