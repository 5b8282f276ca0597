// The message "abc", padded to a single block.
module Sha2Abc {
  import opened Bits
  import opened BitStrings
  import opened Sha2
  import opened Sha2Traces
  import opened Sha2Words

  /** The bytes 0x61, 0x62 and 0x63, most significant bit first. */
  const ABC: seq<bool> := [false, true, true, false, false, false, false, true,
                           false, true, true, false, false, false, true, false,
                           false, true, true, false, false, false, true, true]

  lemma NatOfByte(b0: bool, b1: bool, b2: bool, b3: bool, b4: bool, b5: bool, b6: bool, b7: bool)
    ensures Nat([b0, b1, b2, b3, b4, b5, b6, b7])
         == 128 * Digit(b0) + 64 * Digit(b1) + 32 * Digit(b2) + 16 * Digit(b3) +
            8 * Digit(b4) + 4 * Digit(b5) + 2 * Digit(b6) + Digit(b7)
  {
    hide Nat, Digit;
    Nothing();
    NatSnoc([], b0);
    assert [] + [b0] == [b0];
    NatSnoc([b0], b1);
    assert [b0] + [b1] == [b0, b1];
    NatSnoc([b0, b1], b2);
    assert [b0, b1] + [b2] == [b0, b1, b2];
    NatSnoc([b0, b1, b2], b3);
    assert [b0, b1, b2] + [b3] == [b0, b1, b2, b3];
    NatSnoc([b0, b1, b2, b3], b4);
    assert [b0, b1, b2, b3] + [b4] == [b0, b1, b2, b3, b4];
    NatSnoc([b0, b1, b2, b3, b4], b5);
    assert [b0, b1, b2, b3, b4] + [b5] == [b0, b1, b2, b3, b4, b5];
    NatSnoc([b0, b1, b2, b3, b4, b5], b6);
    assert [b0, b1, b2, b3, b4, b5] + [b6] == [b0, b1, b2, b3, b4, b5, b6];
    NatSnoc([b0, b1, b2, b3, b4, b5, b6], b7);
    assert [b0, b1, b2, b3, b4, b5, b6] + [b7] == [b0, b1, b2, b3, b4, b5, b6, b7];
  }

  lemma Nothing()
    ensures Nat([]) == 0
  {
  }

  lemma AbcNumber()
    ensures Nat(ABC) == 0x616263 && |ABC| == 24
  {
    var x, y, z := [false, true, true, false, false, false, false, true],
      [false, true, true, false, false, false, true, false], [false, true, true, false, false, false, true, true];
    NatOfByte(false, true, true, false, false, false, false, true);
    NatOfByte(false, true, true, false, false, false, true, false);
    NatOfByte(false, true, true, false, false, false, true, true);
    hide Nat;
    assert ABC == x + y + z;
    NatConcat(x, y);
    NatConcat(x + y, z);
    Pow2Of8(8);
  }

  lemma Pow2Of8(n: nat)
    requires n == 8
    ensures Pow2(n) == 256
  {
    assert Pow2(n - 6) == 2 * Pow2(n - 7) && Pow2(n - 7) == 2 * Pow2(n - 8);
    assert Pow2(n - 4) == 2 * Pow2(n - 5) && Pow2(n - 5) == 2 * Pow2(n - 6);
    assert Pow2(n - 2) == 2 * Pow2(n - 3) && Pow2(n - 3) == 2 * Pow2(n - 4);
    assert Pow2(n) == 2 * Pow2(n - 1) && Pow2(n - 1) == 2 * Pow2(n - 2);
  }

  lemma {:induction false} NoBits(n: nat)
    ensures ToBits(n, 0) == Repeated(false, n)
  {
    if n > 0 {
      NoBits(n - 1);
    }
  }

  /** The bits of a message of 24 bits, the one bit and zeros: the first word of a block. */
  function FirstWord(w: nat, m: nat): nat
    requires w >= 32
  {
    m * Pow2(w - 24) + Pow2(w - 25)
  }

  lemma FirstWordBits(w: nat, message: seq<bool>)
    requires w >= 32 && |message| == 24
    ensures FirstWord(w, Nat(message)) < Pow2(w)
    ensures ToBits(w, FirstWord(w, Nat(message))) == message + [true] + Repeated(false, w - 25)
  {
    hide Nat, ToBits, Repeated, Pow2;
    var rest := [true] + Repeated(false, w - 25);
    NatConcat([true], Repeated(false, w - 25));
    NatOfNothing(w - 25);
    NatOfOne();
    assert message + [true] + Repeated(false, w - 25) == message + rest;
    NatConcat(message, rest);
    NatBound(message + rest);
    BitsOfNat(message + rest);
  }

  lemma NatOfNothing(n: nat)
    ensures Nat(Repeated(false, n)) == 0
  {
    NoBits(n);
    NatOfBits(n, 0);
  }

  lemma NatOfOne()
    ensures Nat([true]) == 1
  {
    assert [true][..0] == [];
  }

  // ---- Words of a block ----

  lemma WordsCons(w: nat, x: nat, rest: seq<bool>)
    requires w > 0 && x < Pow2(w)
    ensures Words(w, ToBits(w, x) + rest) == [x] + Words(w, rest)
  {
    NatOfBits(w, x);
    var b := ToBits(w, x) + rest;
    assert b[..w] == ToBits(w, x) && b[w..] == rest;
  }

  function Zeros(n: nat): (r: seq<nat>)
    ensures |r| == n
  {
    seq<nat>(n, _ => 0)
  }

  lemma {:induction false} WordsOfZeros(w: nat, n: nat, size: nat, rest: seq<bool>)
    requires w > 0 && size == n * w
    ensures Words(w, Repeated(false, size) + rest) == Zeros(n) + Words(w, rest)
  {
    if n > 0 {
      var less: nat := size - w;
      assert less == (n - 1) * w && less >= 0;
      WordsOfZeros(w, n - 1, less, rest);
      NoBits(w);
      assert Repeated(false, size) + rest == ToBits(w, 0) + (Repeated(false, less) + rest);
      WordsCons(w, 0, Repeated(false, less) + rest);
      assert Zeros(n) == [0] + Zeros(n - 1);
    } else {
      assert Repeated(false, size) + rest == rest;
    }
  }

  lemma FirstWordOfAbc(w: nat)
    requires w == 32 || w == 64
    ensures FirstWord(w, Nat(ABC)) == if w == 32 then 0x6162_6380 else 0x6162_6380_0000_0000
  {
    AbcNumber();
    Pow2Of8(8);
    hide Pow2;
    DoublePower(7);
    if w == 64 {
      PowerOf32(32);
      Pow2Add(32, 8);
      Pow2Add(32, 7);
    }
  }

  lemma PaddingOfAbc(v: Variant, w: nat)
    requires (v.limbs == 1 || v.limbs == 2) && w == v.W()
    ensures |Padding(v, ABC)| == v.BlockBits()
    ensures Padding(v, ABC)
         == (ABC + [true] + Repeated(false, w - 25)) + (Repeated(false, 14 * w) + ToBits(w, 24))
  {
    LengthOfAbc(w);
    AbcNumber();
    hide ToBits, Nat;
    assert ZeroBits(v, 24) == (w - 25) + 13 * w;
    assert Padding(v, ABC) == ABC + ([true] + Repeated(false, ZeroBits(v, 24)) + ToBits(2 * w, 24));
  }

  lemma WordsOfParts(w: nat, x: nat, length: nat, zeros: nat)
    requires w > 0 && x < Pow2(w) && length < Pow2(w) && zeros == 14 * w
    ensures Words(w, ToBits(w, x) + (Repeated(false, zeros) + ToBits(w, length))) == [x] + Zeros(14) + [length]
  {
    hide *;
    WordsCons(w, x, Repeated(false, zeros) + ToBits(w, length));
    WordsOfZeros(w, 14, zeros, ToBits(w, length));
    LastWord(w, length);
    Associative([x], Zeros(14), [length]);
  }

  lemma LastWord(w: nat, x: nat)
    requires w > 0 && x < Pow2(w)
    ensures Words(w, ToBits(w, x)) == [x]
  {
    hide ToBits;
    WordsCons(w, x, []);
    assert ToBits(w, x) + [] == ToBits(w, x);
  }

  lemma Associative(a: seq<nat>, b: seq<nat>, c: seq<nat>)
    ensures a + (b + c) == a + b + c
  {
  }

  /** The padded message, word by word. */
  lemma PaddedAbc(v: Variant)
    requires v.limbs == 1 || v.limbs == 2
    ensures |Padding(v, ABC)| == v.BlockBits()
    ensures Words(v.W(), Padding(v, ABC)) == [FirstWord(v.W(), Nat(ABC))] + Zeros(14) + [24]
  {
    hide Nat, ToBits, Words, FirstWord, Padding, Repeated, ABC, Pow2, Zeros;
    var w := v.W();
    AbcNumber();
    FirstWordBits(w, ABC);
    PaddingOfAbc(v, w);
    SmallWord(w);
    WordsOfParts(w, FirstWord(w, Nat(ABC)), 24, 14 * w);
  }

  lemma SmallWord(w: nat)
    requires w >= 32
    ensures 24 < Pow2(w)
  {
    Pow2Of8(8);
    Pow2Monotone(8, w);
  }

  lemma LengthOfAbc(w: nat)
    requires w >= 32
    ensures ToBits(2 * w, 24) == Repeated(false, w) + ToBits(w, 24)
  {
    SmallWord(w);
    NoBits(w);
    BitsConcat(w, w, 0, 24, 24);
  }

  // ---- The digest of one block ----

  lemma ReachedWords(v: Variant, block: seq<nat>, t: nat, s: Trace)
    requires After(v, block, t, s)
    ensures AreWords(v.W(), s) && |block| == 16 && t <= |v.k|
    ensures Rounds(v, v.h, block, t) == Numbers(s)
  {
  }

  lemma OneBlock(v: Variant, padded: seq<bool>, block: seq<nat>)
    requires v.limbs > 0 && |padded| == v.BlockBits() && Words(v.W(), padded) == block && |block| == 16
    ensures HashBlocks(v, v.h, padded) == HashBlock(v, v.h, block)
  {
    hide Words, HashBlock;
    assert padded[..v.BlockBits()] == padded && padded[v.BlockBits()..] == [];
  }

  /** The digest of a message that fills one block with its padding, from the last working variables. */
  lemma DigestOfBlock(v: Variant, block: seq<nat>, s: Trace)
    requires v.limbs > 0 && |Padding(v, ABC)| == v.BlockBits() && Words(v.W(), Padding(v, ABC)) == block
    requires After(v, block, |v.k|, s)
    ensures Digest(v, ABC) == StateBits(v, AddStates(v, v.h, Numbers(s)))
  {
    hide Words, Rounds, StateBits, AddStates, Padding, HashBlocks, Numbers, AreWords;
    OneBlock(v, Padding(v, ABC), block);
  }
}
