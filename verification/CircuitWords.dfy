// Words of one or two 32-bit limbs on wires: conversion to and from bits, and addition.
module CircuitWords {
  import opened Field
  import opened Bits
  import opened BitStrings
  import opened Circuit
  import opened CircuitBits

  /** The limbs of a word, least significant first. */
  type Word = seq<Wire>

  ghost predicate Limbs32(w: Assignment, x: Word)
  {
    forall i :: 0 <= i < |x| ==> w(x[i]) < TWO32
  }

  function WordValue(w: Assignment, x: Word): nat
  {
    if x == [] then 0 else w(x[0]) + TWO32 * WordValue(w, x[1..])
  }

  ghost predicate InUse(n: nat, wires: seq<Wire>)
  {
    forall i :: 0 <= i < |wires| ==> wires[i] < n
  }

  /** A word of `limbs` limbs on wires below n, whatever assignment of `models` is chosen. */
  ghost predicate IsWordIn(models: iset<Assignment>, n: nat, x: Word, limbs: nat)
  {
    |x| == limbs && InUse(n, x) && forall w: Assignment :: w in models ==> Limbs32(w, x)
  }

  ghost predicate IsWord(builder: CircuitBuilder, x: Word, limbs: nat)
    reads builder
  {
    IsWordIn(builder.models, builder.wires, x, limbs)
  }

  ghost predicate AreBitsIn(models: iset<Assignment>, n: nat, bits: seq<Wire>, count: nat)
  {
    |bits| == count && InUse(n, bits) && forall w: Assignment :: w in models ==> AllBits(w, bits)
  }

  ghost predicate AreBits(builder: CircuitBuilder, bits: seq<Wire>, count: nat)
    reads builder
  {
    AreBitsIn(builder.models, builder.wires, bits, count)
  }

  lemma {:induction false} WordBelow(w: Assignment, x: Word)
    requires Limbs32(w, x)
    ensures WordValue(w, x) < Pow2(32 * |x|)
  {
    if x != [] {
      TailLimbs(w, x);
      WordBelow(w, x[1..]);
      LimbPower(|x|, 32);
    }
  }

  lemma TailLimbs(w: Assignment, x: Word)
    requires Limbs32(w, x) && x != []
    ensures w(x[0]) < TWO32 && Limbs32(w, x[1..])
  {
    forall i | 0 <= i < |x| - 1
      ensures w(x[1..][i]) < TWO32
    {
      assert x[1..][i] == x[i + 1];
    }
  }

  lemma LimbPower(limbs: nat, n: nat)
    requires limbs > 0 && n == 32
    ensures Pow2(32 * limbs) == Pow2(32 * (limbs - 1)) * TWO32
  {
    PowerOf32(n);
    Pow2Add(32 * (limbs - 1), n);
  }

  /** The bits of one more limb go behind those of the limbs above it. */
  lemma BitsOfLimb(w: Assignment, x: Word, above: seq<bool>, n: nat)
    requires x != [] && Limbs32(w, x) && n == 32
    requires above == ToBits(32 * (|x| - 1), WordValue(w, x[1..]))
    ensures above + ToBits(n, w(x[0])) == ToBits(32 * |x|, WordValue(w, x))
  {
    TailLimbs(w, x);
    WordBelow(w, x[1..]);
    PowerOf32(n);
    BitsConcat(32 * (|x| - 1), n, WordValue(w, x[1..]), w(x[0]), WordValue(w, x));
  }

  // ---- Conversions ----

  /** The bits of limb i go behind those of the limbs above it. */
  lemma NextLimbBits(w: Assignment, x: Word, i: nat, bits: seq<Wire>, limbs: seq<Wire>, n: nat)
    requires i < |x| && n == 32 == |limbs| && Limbs32(w, x) && Writes(w, limbs, x[i]) && AllBits(w, bits)
    requires BitValues(w, bits) == ToBits(32 * (|x| - (i + 1)), WordValue(w, x[i + 1..]))
    ensures AllBits(w, bits + Reversed(limbs))
    ensures BitValues(w, bits + Reversed(limbs)) == ToBits(32 * (|x| - i), WordValue(w, x[i..]))
  {
    assert x[i..][0] == x[i] && x[i..][1..] == x[i + 1..];
    assert Limbs32(w, x[i..]);
    ReversedBits(w, limbs);
    BitValuesConcat(w, bits, Reversed(limbs));
    BitsOfLimb(w, x[i..], BitValues(w, bits), n);
  }

  /** `u32_to_bits_target`, `biguint_to_bits_target`: most significant bit first. */
  method WordToBits(builder: CircuitBuilder, x: Word, n: nat) returns (bits: seq<Wire>)
    requires builder.Valid() && IsWord(builder, x, |x|) && n == 32
    modifies builder
    ensures builder.Grown() && AreBits(builder, bits, 32 * |x|)
    ensures forall w: Assignment :: w in builder.models ==> BitValues(w, bits) == ToBits(32 * |x|, WordValue(w, x))
  {
    hide Writes, WordValue, ToBits, BitValues;
    bits := [];
    var i: nat := |x|;
    NothingYet(builder, x);
    while i > 0
      invariant i <= |x| && builder.Grown() && AreBits(builder, bits, 32 * (|x| - i))
      invariant forall w: Assignment :: w in builder.models ==>
                BitValues(w, bits) == ToBits(32 * (|x| - i), WordValue(w, x[i..]))
    {
      i := i - 1;
      var limbs := SplitLeBase(builder, x[i], n);
      forall w: Assignment | w in builder.models
        ensures AllBits(w, bits + Reversed(limbs))
        ensures BitValues(w, bits + Reversed(limbs)) == ToBits(32 * (|x| - i), WordValue(w, x[i..]))
      {
        NextLimbBits(w, x, i, bits, limbs, n);
      }
      bits := bits + Reversed(limbs);
    }
    assert x[0..] == x;
  }

  lemma NothingYet(builder: CircuitBuilder, x: Word)
    ensures AreBits(builder, [], 0)
    ensures forall w: Assignment :: BitValues(w, []) == ToBits(0, WordValue(w, x[|x|..]))
  {
  }

  lemma ReversedSnoc<T>(s: seq<T>, x: T)
    ensures Reversed(s + [x]) == [x] + Reversed(s)
  {
  }

  /** The value of a word whose upper limbs write `above` and whose lowest limb writes `chunk`. */
  lemma ValueOfChunk(w: Assignment, upper: Word, low: Wire, above: seq<bool>, chunk: seq<bool>, n: nat)
    requires WordValue(w, upper) == Nat(above) && w(low) == Nat(chunk) && |chunk| == n == 32
    ensures WordValue(w, [low] + upper) == Nat(above + chunk)
  {
    NatConcat(above, chunk);
    PowerOf32(n);
    assert ([low] + upper)[1..] == upper;
  }

  lemma SumOfChunk(w: Assignment, chunk: seq<Wire>, sum: Wire, n: nat)
    requires |chunk| == n == 32 && AllBits(w, chunk) && w(sum) == LittleEndian(w, Reversed(chunk)) % P
    ensures w(sum) == Nat(BitValues(w, chunk)) < TWO32
  {
    ReversedBits(w, chunk);
    LittleEndianIsNat(w, Reversed(chunk));
    ReversedTwice(chunk);
    NatBelowField(BitValues(w, chunk), n);
    BelowField(Nat(BitValues(w, chunk)));
  }

  /** `bits_to_u32_target`, and one limb of `bits_to_biguint_target`. */
  method BitsToLimb(builder: CircuitBuilder, chunk: seq<Wire>, n: nat) returns (limb: Wire)
    requires builder.Valid() && AreBits(builder, chunk, n) && n == 32
    modifies builder
    ensures builder.Grown() && limb < builder.wires
    ensures forall w: Assignment :: w in builder.models ==> w(limb) == Nat(BitValues(w, chunk)) < TWO32
  {
    forall w: Assignment | w in builder.models
      ensures AllBits(w, Reversed(chunk))
    {
      ReversedBits(w, chunk);
    }
    limb := LeSum(builder, Reversed(chunk));
    forall w: Assignment | w in builder.models
      ensures w(limb) == Nat(BitValues(w, chunk)) < TWO32
    {
      SumOfChunk(w, chunk, limb, n);
    }
  }

  /** The next limb of `bits_to_biguint_target`. */
  method NextChunk(builder: CircuitBuilder, bits: seq<Wire>, limbs: nat, n: nat, i: nat, ghost upper: Word)
    returns (limb: Wire)
    requires builder.Valid() && AreBits(builder, bits, 32 * limbs) && n == 32 && i < limbs && IsWord(builder, upper, i)
    requires forall w: Assignment :: w in builder.models ==> WordValue(w, upper) == Nat(BitValues(w, bits[..32 * i]))
    modifies builder
    ensures builder.Grown() && AreBits(builder, bits, 32 * limbs) && IsWord(builder, [limb] + upper, i + 1)
    ensures forall w: Assignment :: w in builder.models ==>
            WordValue(w, [limb] + upper) == Nat(BitValues(w, bits[..32 * (i + 1)]))
  {
    hide Nat, WordValue, BitValues, AllBits;
    var chunk := bits[32 * i..32 * i + 32];
    ChunkIsBits(builder, bits, 32 * limbs, 32 * i, n);
    limb := BitsToLimb(builder, chunk, n);
    forall w: Assignment | w in builder.models
      ensures WordValue(w, [limb] + upper) == Nat(BitValues(w, bits[..32 * (i + 1)]))
    {
      assert bits[..32 * (i + 1)] == bits[..32 * i] + chunk;
      BitValuesConcat(w, bits[..32 * i], chunk);
      ValueOfChunk(w, upper, limb, BitValues(w, bits[..32 * i]), BitValues(w, chunk), n);
    }
  }

  /** `bits_to_biguint_target`: 32 bits at a time from the most significant ones down. */
  method BitsToWord(builder: CircuitBuilder, bits: seq<Wire>, limbs: nat, n: nat) returns (x: Word)
    requires builder.Valid() && AreBits(builder, bits, 32 * limbs) && n == 32
    modifies builder
    ensures builder.Grown() && IsWord(builder, x, limbs)
    ensures forall w: Assignment :: w in builder.models ==> WordValue(w, x) == Nat(BitValues(w, bits))
  {
    hide Limbs32, AllBits;
    var targets: seq<Wire> := [];
    NoBits(builder, bits);
    for i: nat := 0 to limbs
      invariant builder.Grown() && AreBits(builder, bits, 32 * limbs) && IsWord(builder, Reversed(targets), i)
      invariant forall w: Assignment :: w in builder.models ==>
                WordValue(w, Reversed(targets)) == Nat(BitValues(w, bits[..32 * i]))
    {
      var limb := NextChunk(builder, bits, limbs, n, i, Reversed(targets));
      ReversedSnoc(targets, limb);
      targets := targets + [limb];
    }
    assert bits[..32 * limbs] == bits;
    x := Reversed(targets);
  }

  lemma NoBits(builder: CircuitBuilder, bits: seq<Wire>)
    ensures IsWord(builder, [], 0)
    ensures forall w: Assignment :: WordValue(w, []) == Nat(BitValues(w, bits[..0]))
  {
  }

  lemma ChunkIsBits(builder: CircuitBuilder, bits: seq<Wire>, total: nat, at: nat, n: nat)
    requires AreBits(builder, bits, total) && at + n <= total
    ensures AreBits(builder, bits[at..at + n], n)
  {
    forall w: Assignment | w in builder.models
      ensures AllBits(w, bits[at..at + n])
    {
      assert AllBits(w, bits);
    }
  }

  // ---- Addition ----

  lemma OneLimb(w: Assignment, x: Word)
    requires |x| == 1
    ensures WordValue(w, x) == w(x[0])
  {
    assert x[1..] == [];
  }

  lemma TwoLimbs(w: Assignment, x: Word)
    requires |x| == 2
    ensures WordValue(w, x) == w(x[0]) + TWO32 * w(x[1])
  {
    OneLimb(w, x[1..]);
  }

  lemma PowerOfLimbs(limbs: nat, n: nat)
    requires (limbs == 1 || limbs == 2) && n == 32
    ensures Pow2(32 * limbs) == if limbs == 1 then TWO32 else TWO32 * TWO32
  {
    PowerOf32(n);
    if limbs == 2 {
      Pow2Add(n, n);
    }
  }

  /** Adding limb by limb with carry is adding modulo 2^64. */
  lemma LimbwiseSum(x0: nat, x1: nat, y0: nat, y1: nat)
    requires x0 < TWO32 && x1 < TWO32 && y0 < TWO32 && y1 < TWO32
    ensures var low, carry := (x0 + y0) % TWO32, (x0 + y0) / TWO32;
            low + TWO32 * ((carry + x1 + y1) % TWO32) == ((x0 + TWO32 * x1) + (y0 + TWO32 * y1)) % (TWO32 * TWO32)
  {
    var low, carry := (x0 + y0) % TWO32, (x0 + y0) / TWO32;
    var high, over := (carry + x1 + y1) % TWO32, (carry + x1 + y1) / TWO32;
    assert x0 + y0 == low + TWO32 * carry && carry + x1 + y1 == high + TWO32 * over;
    DivModUnique((x0 + TWO32 * x1) + (y0 + TWO32 * y1), TWO32 * TWO32, over, low + TWO32 * high);
  }

  lemma SumOfThree(w: Assignment, a: Wire, b: Wire, c: Wire)
    ensures SumOf(w, [a, b, c]) == w(a) + w(b) + w(c)
  {
    assert [a, b, c][..2] == [a, b] && [a, b][..1] == [a] && [a][..0] == [];
    assert SumOf(w, [a]) == w(a);
    assert SumOf(w, [a, b]) == w(a) + w(b);
  }

  /** One limb of the addition with carry. */
  method AddLimb(builder: CircuitBuilder, carry: Wire, x: Wire, y: Wire) returns (low: Wire, next: Wire)
    requires builder.Valid() && carry < builder.wires && x < builder.wires && y < builder.wires
    requires forall w: Assignment :: w in builder.models ==> w(carry) < TWO32 && w(x) < TWO32 && w(y) < TWO32
    modifies builder
    ensures builder.Grown() && low < builder.wires && next < builder.wires
    ensures forall w: Assignment :: w in builder.models ==>
              w(low) == (w(carry) + w(x) + w(y)) % TWO32 && w(next) == (w(carry) + w(x) + w(y)) / TWO32 &&
                w(next) < TWO32
  {
    low, next := AddManyU32(builder, [carry, x, y]);
    forall w: Assignment | w in builder.models
      ensures SumOf(w, [carry, x, y]) == w(carry) + w(x) + w(y)
    {
      SumOfThree(w, carry, x, y);
    }
  }

  function CarryInto(w: Assignment, x: Word, y: Word, i: nat): nat
    requires i <= |x| && i <= |y|
  {
    if i == 0 then 0 else (CarryInto(w, x, y, i - 1) + w(x[i - 1]) + w(y[i - 1])) / TWO32
  }

  function SumLimb(w: Assignment, x: Word, y: Word, i: nat): nat
    requires i < |x| && i < |y|
  {
    (CarryInto(w, x, y, i) + w(x[i]) + w(y[i])) % TWO32
  }

  /** The lowest i limbs of the sum, and the carry out of them. */
  ghost predicate PartialSum(w: Assignment, x: Word, y: Word, combined: Word, carry: Wire, i: nat)
    requires i == |combined| <= |x| && i <= |y|
  {
    w(carry) == CarryInto(w, x, y, i) && forall j :: 0 <= j < i ==> w(combined[j]) == SumLimb(w, x, y, j)
  }

  lemma {:induction false} CarrySmall(w: Assignment, x: Word, y: Word, i: nat)
    requires i <= |x| && i <= |y| && Limbs32(w, x) && Limbs32(w, y)
    ensures CarryInto(w, x, y, i) < 2
  {
    if i > 0 {
      CarrySmall(w, x, y, i - 1);
    }
  }

  method NextLimb(builder: CircuitBuilder, x: Word, y: Word, combined: Word, carry: Wire, i: nat)
    returns (limb: Wire, next: Wire)
    requires builder.Valid() && IsWord(builder, x, |x|) && IsWord(builder, y, |y|) && i == |combined| < |x| && i < |y|
    requires carry < builder.wires && forall w: Assignment :: w in builder.models ==>
             PartialSum(w, x, y, combined, carry, i)
    modifies builder
    ensures builder.Grown() && limb < builder.wires && next < builder.wires
    ensures forall w: Assignment :: w in builder.models ==> PartialSum(w, x, y, combined + [limb], next, i + 1)
  {
    forall w: Assignment | w in builder.models
      ensures w(carry) < TWO32 && w(x[i]) < TWO32 && w(y[i]) < TWO32
    {
      assert Limbs32(w, x) && Limbs32(w, y) && PartialSum(w, x, y, combined, carry, i);
      CarrySmall(w, x, y, i);
    }
    limb, next := AddLimb(builder, carry, x[i], y[i]);
    forall w: Assignment | w in builder.models
      ensures PartialSum(w, x, y, combined + [limb], next, i + 1)
    {
      assert PartialSum(w, x, y, combined, carry, i);
    }
  }

  lemma NoCarryYet(models: iset<Assignment>, x: Word, y: Word, carry: Wire)
    requires forall w: Assignment :: w in models ==> w(carry) == 0
    ensures forall w: Assignment :: w in models ==> PartialSum(w, x, y, [], carry, 0)
  {
  }

  lemma SumLimbsSmall(w: Assignment, x: Word, y: Word, sum: Word)
    requires |sum| <= |x| && |sum| <= |y| && forall j :: 0 <= j < |sum| ==> w(sum[j]) == SumLimb(w, x, y, j)
    ensures Limbs32(w, sum)
  {
  }

  /** `add_biguint_2limbs`: the carry of each limb goes into the next one. */
  method AddTwoLimbs(builder: CircuitBuilder, x: Word, y: Word) returns (sum: Word)
    requires builder.Valid() && IsWord(builder, x, 2) && IsWord(builder, y, 2)
    modifies builder
    ensures builder.Grown() && IsWord(builder, sum, 2)
    ensures forall w: Assignment :: w in builder.models ==>
              WordValue(w, sum) == (WordValue(w, x) + WordValue(w, y)) % (TWO32 * TWO32)
  {
    hide WordValue, CarryInto, SumLimb, Limbs32;
    var carry: Wire := builder.NewConstant(0);
    sum := [];
    NoCarryYet(builder.models, x, y, carry);
    for i: nat := 0 to 2
      invariant builder.Grown() && carry < builder.wires && |sum| == i && InUse(builder.wires, sum)
      invariant forall w: Assignment :: w in builder.models ==> PartialSum(w, x, y, sum, carry, i)
    {
      var limb: Wire, next: Wire := NextLimb(builder, x, y, sum, carry, i);
      sum, carry := sum + [limb], next;
    }
    forall w: Assignment | w in builder.models
      ensures Limbs32(w, sum) && WordValue(w, sum) == (WordValue(w, x) + WordValue(w, y)) % (TWO32 * TWO32)
    {
      assert Limbs32(w, x) && Limbs32(w, y) && PartialSum(w, x, y, sum, carry, 2);
      SumLimbsSmall(w, x, y, sum);
      TwoLimbAddition(w, x, y, sum);
    }
  }

  lemma TwoLimbAddition(w: Assignment, x: Word, y: Word, sum: Word)
    requires |x| == |y| == |sum| == 2 && Limbs32(w, x) && Limbs32(w, y)
    requires forall j :: 0 <= j < 2 ==> w(sum[j]) == SumLimb(w, x, y, j)
    ensures WordValue(w, sum) == (WordValue(w, x) + WordValue(w, y)) % (TWO32 * TWO32)
  {
    TwoLimbs(w, x);
    TwoLimbs(w, y);
    TwoLimbs(w, sum);
    assert CarryInto(w, x, y, 0) == 0;
    assert CarryInto(w, x, y, 1) == (w(x[0]) + w(y[0])) / TWO32;
    LimbwiseSum(w(x[0]), w(x[1]), w(y[0]), w(y[1]));
  }

  /** `add_u32` of one-limb words, `add_biguint_2limbs` of two-limb words: addition modulo the word size. */
  method AddWords(builder: CircuitBuilder, x: Word, y: Word, limbs: nat) returns (sum: Word)
    requires builder.Valid() && (limbs == 1 || limbs == 2) && IsWord(builder, x, limbs) && IsWord(builder, y, limbs)
    modifies builder
    ensures builder.Grown() && IsWord(builder, sum, limbs)
    ensures forall w: Assignment :: w in builder.models ==>
              WordValue(w, sum) == (WordValue(w, x) + WordValue(w, y)) % Pow2(32 * limbs)
  {
    PowerOfLimbs(limbs, 32);
    if limbs == 1 {
      sum := AddOneLimb(builder, x, y);
    } else {
      sum := AddTwoLimbs(builder, x, y);
    }
  }

  /** `add_u32`; the carry is dropped. */
  method AddOneLimb(builder: CircuitBuilder, x: Word, y: Word) returns (sum: Word)
    requires builder.Valid() && IsWord(builder, x, 1) && IsWord(builder, y, 1)
    modifies builder
    ensures builder.Grown() && IsWord(builder, sum, 1)
    ensures forall w: Assignment :: w in builder.models ==>
            WordValue(w, sum) == (WordValue(w, x) + WordValue(w, y)) % TWO32
  {
    forall w: Assignment | w in builder.models
      ensures w(x[0]) < TWO32 && w(y[0]) < TWO32
    {
      assert Limbs32(w, x) && Limbs32(w, y);
    }
    var low, _ := AddU32(builder, x[0], y[0]);
    sum := [low];
    forall w: Assignment | w in builder.models
      ensures WordValue(w, sum) == (WordValue(w, x) + WordValue(w, y)) % TWO32
    {
      OneLimb(w, x);
      OneLimb(w, y);
      OneLimb(w, sum);
    }
  }
}
