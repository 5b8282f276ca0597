// Words as bit vectors, on which the operations of SHA-2 can be computed: the same operations as on bit strings.
module Sha2Words {
  import opened Bits
  import opened BitStrings
  import opened Sha2

  function Num(x: bv64): nat { x as nat }

  /** All bits but the last, and the last. */
  function Half(x: bv64): bv64 { x >> 1 }

  predicate Odd(x: bv64) { x & 1 == 1 }

  /** The lowest n bits, most significant first. */
  function LowBits(n: nat, x: bv64): (r: seq<bool>)
    ensures |r| == n
  {
    ToBits(n, Num(x))
  }

  /** Word sizes, and what a word of this size can be. */
  predicate IsWord(n: nat, x: bv64)
  {
    n == 64 || (n == 32 && x < 0x1_0000_0000)
  }

  // ---- The number of a bit vector ----

  function UpperPart(x: bv64): bv63 { (x >> 1) as bv63 }

  function LastPart(x: bv64): bv1 { (x & 1) as bv1 }

  lemma Parts(x: bv64)
    ensures x == ((UpperPart(x) as bv64) << 1) | (LastPart(x) as bv64)
    ensures Half(x) == UpperPart(x) as bv64 && x & 1 == LastPart(x) as bv64 && (Odd(x) <==> LastPart(x) == 1)
  {
  }

  lemma JoinedNumber(y: bv63, b: bv1)
    ensures Num(((y as bv64) << 1) | (b as bv64)) == 2 * Num(y as bv64) + Num(b as bv64)
  {
  }

  lemma BitNumber(b: bv1)
    ensures Num(b as bv64) == Digit(b == 1)
  {
  }

  /** The number without its last bit. */
  lemma Halved(x: bv64)
    ensures Num(x) == 2 * Num(Half(x)) + Digit(Odd(x))
  {
    hide Num, Half, Odd, UpperPart, LastPart, Digit;
    Parts(x);
    JoinedNumber(UpperPart(x), LastPart(x));
    BitNumber(LastPart(x));
  }

  lemma LowBitsStep(n: nat, x: bv64)
    ensures LowBits(n + 1, x) == LowBits(n, Half(x)) + [Odd(x)]
  {
    hide Num, Half, Odd;
    Halved(x);
    ToBitsSnoc(n, Num(Half(x)), Odd(x));
  }

  function AsHalf(x: bv64): bv32
    requires x < 0x1_0000_0000
  {
    x as bv32
  }

  lemma HalfNumber(y: bv32)
    ensures Num(y as bv64) == y as nat
  {
  }

  lemma HalfBelow(y: bv32)
    ensures y as nat < 0x1_0000_0000
  {
  }

  lemma AsHalfBack(x: bv64)
    requires x < 0x1_0000_0000
    ensures x == AsHalf(x) as bv64
  {
  }

  lemma NumBelow64(x: bv64)
    ensures Num(x) < 0x1_0000_0000_0000_0000
  {
  }

  lemma NumBelow(n: nat, x: bv64)
    requires IsWord(n, x)
    ensures Num(x) < Pow2(n)
  {
    hide Num, AsHalf, Pow2;
    PowerOf32(32);
    if n == 32 {
      AsHalfBack(x);
      HalfNumber(AsHalf(x));
      HalfBelow(AsHalf(x));
    } else {
      Pow2Add(32, 32);
      NumBelow64(x);
    }
  }

  // ---- Operations bit by bit ----

  function Parity(x: bv64, y: bv64, z: bv64): bv64 { x ^ y ^ z }

  function Choose(x: bv64, y: bv64, z: bv64): bv64 { (x & y) ^ (!x & z) }

  function Majority(x: bv64, y: bv64, z: bv64): bv64 { (x & y) ^ (x & z) ^ (y & z) }

  lemma ParityStep(x: bv64, y: bv64, z: bv64)
    ensures Half(Parity(x, y, z)) == Parity(Half(x), Half(y), Half(z))
    ensures Odd(Parity(x, y, z)) == Xor(Xor(Odd(x), Odd(y)), Odd(z))
  {
  }

  lemma ChooseStep(x: bv64, y: bv64, z: bv64)
    ensures Half(Choose(x, y, z)) == Choose(Half(x), Half(y), Half(z))
    ensures Odd(Choose(x, y, z)) == Xor(Odd(x) && Odd(y), !Odd(x) && Odd(z))
  {
  }

  lemma MajorityStep(x: bv64, y: bv64, z: bv64)
    ensures Half(Majority(x, y, z)) == Majority(Half(x), Half(y), Half(z))
    ensures Odd(Majority(x, y, z)) == Xor(Xor(Odd(x) && Odd(y), Odd(x) && Odd(z)), Odd(y) && Odd(z))
  {
  }

  lemma Snoc3(a: seq<bool>, b: seq<bool>, c: seq<bool>, x: bool, y: bool, z: bool)
    requires |a| == |b| == |c|
    ensures Xor3(a + [x], b + [y], c + [z]) == Xor3(a, b, c) + [Xor(Xor(x, y), z)]
    ensures ChBits(a + [x], b + [y], c + [z]) == ChBits(a, b, c) + [Xor(x && y, !x && z)]
    ensures MajBits(a + [x], b + [y], c + [z]) == MajBits(a, b, c) + [Xor(Xor(x && y, x && z), y && z)]
  {
  }

  lemma {:induction false} ParityOfBits(n: nat, x: bv64, y: bv64, z: bv64)
    ensures LowBits(n, Parity(x, y, z)) == Xor3(LowBits(n, x), LowBits(n, y), LowBits(n, z))
  {
    if n > 0 {
      hide LowBits, Xor3, Parity, Half, Odd, Xor;
      ParityOfBits(n - 1, Half(x), Half(y), Half(z));
      ParityStep(x, y, z);
      LowBitsStep(n - 1, x);
      LowBitsStep(n - 1, y);
      LowBitsStep(n - 1, z);
      LowBitsStep(n - 1, Parity(x, y, z));
      Snoc3(LowBits(n - 1, Half(x)), LowBits(n - 1, Half(y)), LowBits(n - 1, Half(z)), Odd(x), Odd(y), Odd(z));
    } else {
      hide Parity, Num;
    }
  }

  lemma {:induction false} ChoiceOfBits(n: nat, x: bv64, y: bv64, z: bv64)
    ensures LowBits(n, Choose(x, y, z)) == ChBits(LowBits(n, x), LowBits(n, y), LowBits(n, z))
  {
    if n > 0 {
      hide LowBits, ChBits, Choose, Half, Odd, Xor;
      ChoiceOfBits(n - 1, Half(x), Half(y), Half(z));
      ChooseStep(x, y, z);
      LowBitsStep(n - 1, x);
      LowBitsStep(n - 1, y);
      LowBitsStep(n - 1, z);
      LowBitsStep(n - 1, Choose(x, y, z));
      Snoc3(LowBits(n - 1, Half(x)), LowBits(n - 1, Half(y)), LowBits(n - 1, Half(z)), Odd(x), Odd(y), Odd(z));
    } else {
      hide Choose, Num;
    }
  }

  lemma {:induction false} MajorityOfBits(n: nat, x: bv64, y: bv64, z: bv64)
    ensures LowBits(n, Majority(x, y, z)) == MajBits(LowBits(n, x), LowBits(n, y), LowBits(n, z))
  {
    if n > 0 {
      hide LowBits, MajBits, Majority, Half, Odd, Xor;
      MajorityOfBits(n - 1, Half(x), Half(y), Half(z));
      MajorityStep(x, y, z);
      LowBitsStep(n - 1, x);
      LowBitsStep(n - 1, y);
      LowBitsStep(n - 1, z);
      LowBitsStep(n - 1, Majority(x, y, z));
      Snoc3(LowBits(n - 1, Half(x)), LowBits(n - 1, Half(y)), LowBits(n - 1, Half(z)), Odd(x), Odd(y), Odd(z));
    } else {
      hide Majority, Num;
    }
  }

  // ---- Rotations and shifts ----

  /** Rotation of a word of 32 or of 64 bits to the right by one bit. */
  function Turn32(x: bv64): bv64 { (x >> 1) | ((x & 1) << 31) }

  function Turn64(x: bv64): bv64 { (x >> 1) | (x << 63) }

  function Turn(n: nat, x: bv64): bv64
  {
    if n == 32 then Turn32(x) else Turn64(x)
  }

  lemma TurnParts64(x: bv64)
    ensures Turn64(x) == ((LastPart(x) as bv64) << 63) | (UpperPart(x) as bv64)
  {
  }

  lemma TurnedNumber64(y: bv63, b: bv1)
    ensures Num(((b as bv64) << 63) | (y as bv64)) == Num(b as bv64) * 0x8000_0000_0000_0000 + Num(y as bv64)
  {
  }

  function UpperPart32(x: bv64): bv31
    requires x < 0x1_0000_0000
  {
    (x >> 1) as bv31
  }

  lemma UpperPart32Back(x: bv64)
    requires x < 0x1_0000_0000
    ensures Half(x) == UpperPart32(x) as bv64
  {
  }

  lemma TurnParts32(x: bv64, y: bv31, b: bv1)
    requires Half(x) == y as bv64 && x & 1 == b as bv64
    ensures Turn32(x) == ((b as bv64) << 31) | (y as bv64)
  {
  }

  lemma TurnedNumber32(y: bv31, b: bv1)
    ensures Num(((b as bv64) << 31) | (y as bv64)) == Num(b as bv64) * 0x8000_0000 + Num(y as bv64)
  {
  }

  lemma HalfPowers()
    ensures 2 * Pow2(31) == 0x1_0000_0000 && 2 * Pow2(63) == 0x1_0000_0000_0000_0000
  {
    PowerOf32(32);
    Pow2Add(32, 32);
    hide Pow2;
    DoublePower(31);
    DoublePower(63);
  }

  lemma DoublePower(n: nat)
    ensures Pow2(n + 1) == 2 * Pow2(n)
  {
  }

  ghost predicate PartsOfHalf(x: bv64, y: bv31, b: bv1)
  {
    Half(x) == y as bv64 && x & 1 == b as bv64 && (Odd(x) <==> b == 1)
  }

  lemma HasParts(x: bv64)
    requires x < 0x1_0000_0000
    ensures PartsOfHalf(x, UpperPart32(x), LastPart(x))
  {
    Parts(x);
    UpperPart32Back(x);
    hide UpperPart32, LastPart, Half, Odd;
  }

  lemma TurnNumber32(x: bv64, y: bv31, b: bv1)
    requires PartsOfHalf(x, y, b)
    ensures Num(Turn32(x)) == Digit(Odd(x)) * 0x8000_0000 + Num(Half(x))
  {
    TurnParts32(x, y, b);
    hide Num, Half, Odd, Digit, Turn32;
    BitNumber(b);
    TurnedNumber32(y, b);
  }

  lemma TurnNumberOfHalf(x: bv64)
    requires x < 0x1_0000_0000
    ensures Num(Turn32(x)) == Digit(Odd(x)) * 0x8000_0000 + Num(Half(x))
  {
    hide *;
    HasParts(x);
    TurnNumber32(x, UpperPart32(x), LastPart(x));
  }

  lemma TurnNumber64(x: bv64)
    ensures Num(Turn64(x)) == Digit(Odd(x)) * 0x8000_0000_0000_0000 + Num(Half(x))
  {
    hide Num, Half, Odd, UpperPart, LastPart, Digit, Turn64;
    Parts(x);
    BitNumber(LastPart(x));
    TurnParts64(x);
    TurnedNumber64(UpperPart(x), LastPart(x));
  }

  /** One turn brings the last bit to the front. */
  lemma TurnNumber(n: nat, x: bv64)
    requires IsWord(n, x)
    ensures Num(Turn(n, x)) == Digit(Odd(x)) * Pow2(n - 1) + Num(Half(x))
  {
    hide Num, Half, Odd, Digit, Turn32, Turn64, Pow2, UpperPart32, UpperPart, LastPart;
    HalfPowers();
    if n == 32 {
      TurnNumberOfHalf(x);
    } else {
      TurnNumber64(x);
    }
  }

  lemma HalfBelowHalf(n: nat, x: bv64)
    requires IsWord(n, x)
    ensures Num(Half(x)) < Pow2(n - 1)
  {
    hide Num, Half, Odd;
    NumBelow(n, x);
    Halved(x);
  }

  lemma TurnOfBits(n: nat, x: bv64)
    requires IsWord(n, x)
    ensures LowBits(n, Turn(n, x)) == Rotr(LowBits(n, x), 1)
    ensures LowBits(n, Half(x)) == Shr(LowBits(n, x), 1)
  {
    hide Num, Half, Odd, Turn, ToBits, Pow2;
    LowBitsStep(n - 1, x);
    TurnNumber(n, x);
    HalfBelowHalf(n, x);
    OneBit(Odd(x));
    BitsConcat(1, n - 1, Digit(Odd(x)), Num(Half(x)), Num(Turn(n, x)));
    OneBit(false);
    BitsConcat(1, n - 1, 0, Num(Half(x)), Num(Half(x)));
  }

  lemma OneBit(b: bool)
    ensures ToBits(1, Digit(b)) == [b] && Digit(b) < Pow2(1)
  {
    assert ToBits(0, Digit(b) / 2) == [];
    assert Pow2(1) == 2 * Pow2(0);
  }

  lemma Turned32(x: bv64)
    requires x < 0x1_0000_0000
    ensures LowBits(32, Turn32(x)) == Rotr(LowBits(32, x), 1)
  {
    hide Turn32, LowBits, Rotr, Shr;
    TurnOfBits(32, x);
  }

  lemma Turned64(x: bv64)
    ensures LowBits(64, Turn64(x)) == Rotr(LowBits(64, x), 1)
  {
    hide Turn64, LowBits, Rotr, Shr;
    TurnOfBits(64, x);
  }

  lemma Sized(n: nat, x: bv64)
    requires IsWord(n, x)
    ensures n == 32 || n == 64
  {
  }

  lemma RotateOn(b: seq<bool>, y: nat, z: nat)
    requires y + z <= |b|
    ensures Rotr(Rotr(b, y), z) == Rotr(b, y + z) && Shr(Shr(b, y), z) == Shr(b, y + z)
  {
  }

  // ---- Sums ----

  function Add32(x: bv64, y: bv64): bv64 { (x + y) & 0xffff_ffff }

  function Add64(x: bv64, y: bv64): bv64 { x + y }

  function Wide(x: bv128): nat { x as nat }

  function Carry(x: bv64, y: bv64): bv64 { (((x as bv128) + (y as bv128)) >> 64) as bv64 }

  lemma WideSum(x: bv64, y: bv64)
    ensures Wide((x as bv128) + (y as bv128)) == Num(x) + Num(y)
  {
  }

  lemma WideParts(x: bv64, y: bv64)
    ensures (x as bv128) + (y as bv128) == ((Carry(x, y) as bv128) << 64) | (Add64(x, y) as bv128)
  {
  }

  lemma WideNumber(c: bv64, z: bv64)
    ensures Wide(((c as bv128) << 64) | (z as bv128)) == Num(c) * 0x1_0000_0000_0000_0000 + Num(z)
  {
  }

  /** Addition modulo 2^64. */
  lemma Added64(x: bv64, y: bv64)
    ensures Num(Add64(x, y)) == (Num(x) + Num(y)) % 0x1_0000_0000_0000_0000
  {
    hide *;
    WideSum(x, y);
    WideParts(x, y);
    WideNumber(Carry(x, y), Add64(x, y));
    NumBelow64(Add64(x, y));
    DivModUnique(Num(x) + Num(y), 0x1_0000_0000_0000_0000, Num(Carry(x, y)), Num(Add64(x, y)));
  }

  function Extended(x: bv32): bv64 { x as bv64 }

  function Joined(h: bv32, l: bv32): bv64 { ((h as bv64) << 32) | (l as bv64) }

  function UpperHalf(x: bv64): bv32 { (x >> 32) as bv32 }

  function LowerHalf(x: bv64): bv32 { (x & 0xffff_ffff) as bv32 }

  function Low32(x: bv64): bv64 { x & 0xffff_ffff }

  lemma Halves(x: bv64)
    ensures x == Joined(UpperHalf(x), LowerHalf(x)) && Low32(x) == Extended(LowerHalf(x))
  {
  }

  lemma JoinedHalves(h: bv32, l: bv32)
    ensures Num(Joined(h, l)) == Num(Extended(h)) * 0x1_0000_0000 + Num(Extended(l))
  {
  }

  lemma ExtendedBelow(x: bv32)
    ensures Num(Extended(x)) < 0x1_0000_0000
  {
    HalfNumber(x);
    HalfBelow(x);
    hide Num;
  }

  lemma SumNumber(x: bv32, y: bv32)
    ensures Num((x as bv64) + (y as bv64)) == Num(x as bv64) + Num(y as bv64)
  {
  }

  lemma SumIs(x: bv32, y: bv32)
    ensures Add64(Extended(x), Extended(y)) == (x as bv64) + (y as bv64)
    ensures Extended(x) == x as bv64 && Extended(y) == y as bv64
  {
  }

  lemma ExtendedSum(x: bv32, y: bv32)
    ensures Num(Add64(Extended(x), Extended(y))) == Num(Extended(x)) + Num(Extended(y))
  {
    hide *;
    SumNumber(x, y);
    SumIs(x, y);
  }

  lemma IsExtended(x: bv64)
    requires x < 0x1_0000_0000
    ensures x == Extended(AsHalf(x))
  {
  }

  lemma NoCarry(x: bv64, y: bv64)
    requires x < 0x1_0000_0000 && y < 0x1_0000_0000
    ensures Num(Add64(x, y)) == Num(x) + Num(y)
  {
    hide *;
    IsExtended(x);
    IsExtended(y);
    ExtendedSum(AsHalf(x), AsHalf(y));
  }

  lemma Low32Number(x: bv64)
    ensures Num(Low32(x)) == Num(x) % 0x1_0000_0000
  {
    hide *;
    Halves(x);
    JoinedHalves(UpperHalf(x), LowerHalf(x));
    ExtendedBelow(LowerHalf(x));
    DivModUnique(Num(x), 0x1_0000_0000, Num(Extended(UpperHalf(x))), Num(Extended(LowerHalf(x))));
  }

  lemma Add32Is(x: bv64, y: bv64)
    ensures Add32(x, y) == Low32(Add64(x, y)) && Add32(x, y) < 0x1_0000_0000
  {
  }

  /** Addition modulo 2^32. */
  lemma Added32(x: bv64, y: bv64)
    requires x < 0x1_0000_0000 && y < 0x1_0000_0000
    ensures Num(Add32(x, y)) == (Num(x) + Num(y)) % 0x1_0000_0000 && Add32(x, y) < 0x1_0000_0000
  {
    hide *;
    NoCarry(x, y);
    Low32Number(Add64(x, y));
    Add32Is(x, y);
  }

  // ---- Rotations by sums of earlier ones, and shifts ----

  function Right1Of32(x: bv64): bv64 { ((x >> 1) | (x << 31)) & 0xffff_ffff }

  function Right2Of32(x: bv64): bv64 { ((x >> 2) | (x << 30)) & 0xffff_ffff }

  function Right4Of32(x: bv64): bv64 { ((x >> 4) | (x << 28)) & 0xffff_ffff }

  function Right6Of32(x: bv64): bv64 { ((x >> 6) | (x << 26)) & 0xffff_ffff }

  function Right7Of32(x: bv64): bv64 { ((x >> 7) | (x << 25)) & 0xffff_ffff }

  function Right11Of32(x: bv64): bv64 { ((x >> 11) | (x << 21)) & 0xffff_ffff }

  function Right13Of32(x: bv64): bv64 { ((x >> 13) | (x << 19)) & 0xffff_ffff }

  function Right17Of32(x: bv64): bv64 { ((x >> 17) | (x << 15)) & 0xffff_ffff }

  function Right18Of32(x: bv64): bv64 { ((x >> 18) | (x << 14)) & 0xffff_ffff }

  function Right19Of32(x: bv64): bv64 { ((x >> 19) | (x << 13)) & 0xffff_ffff }

  function Right22Of32(x: bv64): bv64 { ((x >> 22) | (x << 10)) & 0xffff_ffff }

  function Right25Of32(x: bv64): bv64 { ((x >> 25) | (x << 7)) & 0xffff_ffff }

  lemma Right1Of32Turns(x: bv64)
    requires x < 0x1_0000_0000
    ensures Right1Of32(x) == Turn32(x) && Right1Of32(x) < 0x1_0000_0000
  {
  }

  lemma Turned1Of32(x: bv64)
    requires x < 0x1_0000_0000
    ensures LowBits(32, Right1Of32(x)) == Rotr(LowBits(32, x), 1) && Right1Of32(x) < 0x1_0000_0000
  {
    hide *;
    Right1Of32Turns(x);
    Turned32(x);
  }

  lemma Right2Of32Is(x: bv64)
    requires x < 0x1_0000_0000
    ensures Right2Of32(x) == Right1Of32(Right1Of32(x)) && Right2Of32(x) < 0x1_0000_0000
  {
  }

  lemma Turned2Of32(x: bv64)
    requires x < 0x1_0000_0000
    ensures LowBits(32, Right2Of32(x)) == Rotr(LowBits(32, x), 2) && Right2Of32(x) < 0x1_0000_0000
  {
    hide *;
    Turned1Of32(x);
    Turned1Of32(Right1Of32(x));
    Right2Of32Is(x);
    RotateOn(LowBits(32, x), 1, 1);
  }

  lemma Right4Of32Is(x: bv64)
    requires x < 0x1_0000_0000
    ensures Right4Of32(x) == Right2Of32(Right2Of32(x)) && Right4Of32(x) < 0x1_0000_0000
  {
  }

  lemma Turned4Of32(x: bv64)
    requires x < 0x1_0000_0000
    ensures LowBits(32, Right4Of32(x)) == Rotr(LowBits(32, x), 4) && Right4Of32(x) < 0x1_0000_0000
  {
    hide *;
    Turned2Of32(x);
    Turned2Of32(Right2Of32(x));
    Right4Of32Is(x);
    RotateOn(LowBits(32, x), 2, 2);
  }

  lemma Right6Of32Is(x: bv64)
    requires x < 0x1_0000_0000
    ensures Right6Of32(x) == Right2Of32(Right4Of32(x)) && Right6Of32(x) < 0x1_0000_0000
  {
  }

  lemma Turned6Of32(x: bv64)
    requires x < 0x1_0000_0000
    ensures LowBits(32, Right6Of32(x)) == Rotr(LowBits(32, x), 6) && Right6Of32(x) < 0x1_0000_0000
  {
    hide *;
    Turned4Of32(x);
    Turned2Of32(Right4Of32(x));
    Right6Of32Is(x);
    RotateOn(LowBits(32, x), 4, 2);
  }

  lemma Right7Of32Is(x: bv64)
    requires x < 0x1_0000_0000
    ensures Right7Of32(x) == Right1Of32(Right6Of32(x)) && Right7Of32(x) < 0x1_0000_0000
  {
  }

  lemma Turned7Of32(x: bv64)
    requires x < 0x1_0000_0000
    ensures LowBits(32, Right7Of32(x)) == Rotr(LowBits(32, x), 7) && Right7Of32(x) < 0x1_0000_0000
  {
    hide *;
    Turned6Of32(x);
    Turned1Of32(Right6Of32(x));
    Right7Of32Is(x);
    RotateOn(LowBits(32, x), 6, 1);
  }

  lemma Right11Of32Is(x: bv64)
    requires x < 0x1_0000_0000
    ensures Right11Of32(x) == Right4Of32(Right7Of32(x)) && Right11Of32(x) < 0x1_0000_0000
  {
  }

  lemma Turned11Of32(x: bv64)
    requires x < 0x1_0000_0000
    ensures LowBits(32, Right11Of32(x)) == Rotr(LowBits(32, x), 11) && Right11Of32(x) < 0x1_0000_0000
  {
    hide *;
    Turned7Of32(x);
    Turned4Of32(Right7Of32(x));
    Right11Of32Is(x);
    RotateOn(LowBits(32, x), 7, 4);
  }

  lemma Right13Of32Is(x: bv64)
    requires x < 0x1_0000_0000
    ensures Right13Of32(x) == Right6Of32(Right7Of32(x)) && Right13Of32(x) < 0x1_0000_0000
  {
  }

  lemma Turned13Of32(x: bv64)
    requires x < 0x1_0000_0000
    ensures LowBits(32, Right13Of32(x)) == Rotr(LowBits(32, x), 13) && Right13Of32(x) < 0x1_0000_0000
  {
    hide *;
    Turned7Of32(x);
    Turned6Of32(Right7Of32(x));
    Right13Of32Is(x);
    RotateOn(LowBits(32, x), 7, 6);
  }

  lemma Right17Of32Is(x: bv64)
    requires x < 0x1_0000_0000
    ensures Right17Of32(x) == Right6Of32(Right11Of32(x)) && Right17Of32(x) < 0x1_0000_0000
  {
  }

  lemma Turned17Of32(x: bv64)
    requires x < 0x1_0000_0000
    ensures LowBits(32, Right17Of32(x)) == Rotr(LowBits(32, x), 17) && Right17Of32(x) < 0x1_0000_0000
  {
    hide *;
    Turned11Of32(x);
    Turned6Of32(Right11Of32(x));
    Right17Of32Is(x);
    RotateOn(LowBits(32, x), 11, 6);
  }

  lemma Right18Of32Is(x: bv64)
    requires x < 0x1_0000_0000
    ensures Right18Of32(x) == Right7Of32(Right11Of32(x)) && Right18Of32(x) < 0x1_0000_0000
  {
  }

  lemma Turned18Of32(x: bv64)
    requires x < 0x1_0000_0000
    ensures LowBits(32, Right18Of32(x)) == Rotr(LowBits(32, x), 18) && Right18Of32(x) < 0x1_0000_0000
  {
    hide *;
    Turned11Of32(x);
    Turned7Of32(Right11Of32(x));
    Right18Of32Is(x);
    RotateOn(LowBits(32, x), 11, 7);
  }

  lemma Right19Of32Is(x: bv64)
    requires x < 0x1_0000_0000
    ensures Right19Of32(x) == Right6Of32(Right13Of32(x)) && Right19Of32(x) < 0x1_0000_0000
  {
  }

  lemma Turned19Of32(x: bv64)
    requires x < 0x1_0000_0000
    ensures LowBits(32, Right19Of32(x)) == Rotr(LowBits(32, x), 19) && Right19Of32(x) < 0x1_0000_0000
  {
    hide *;
    Turned13Of32(x);
    Turned6Of32(Right13Of32(x));
    Right19Of32Is(x);
    RotateOn(LowBits(32, x), 13, 6);
  }

  lemma Right22Of32Is(x: bv64)
    requires x < 0x1_0000_0000
    ensures Right22Of32(x) == Right11Of32(Right11Of32(x)) && Right22Of32(x) < 0x1_0000_0000
  {
  }

  lemma Turned22Of32(x: bv64)
    requires x < 0x1_0000_0000
    ensures LowBits(32, Right22Of32(x)) == Rotr(LowBits(32, x), 22) && Right22Of32(x) < 0x1_0000_0000
  {
    hide *;
    Turned11Of32(x);
    Turned11Of32(Right11Of32(x));
    Right22Of32Is(x);
    RotateOn(LowBits(32, x), 11, 11);
  }

  lemma Right25Of32Is(x: bv64)
    requires x < 0x1_0000_0000
    ensures Right25Of32(x) == Right7Of32(Right18Of32(x)) && Right25Of32(x) < 0x1_0000_0000
  {
  }

  lemma Turned25Of32(x: bv64)
    requires x < 0x1_0000_0000
    ensures LowBits(32, Right25Of32(x)) == Rotr(LowBits(32, x), 25) && Right25Of32(x) < 0x1_0000_0000
  {
    hide *;
    Turned18Of32(x);
    Turned7Of32(Right18Of32(x));
    Right25Of32Is(x);
    RotateOn(LowBits(32, x), 18, 7);
  }

  function Right1Of64(x: bv64): bv64 { (x >> 1) | (x << 63) }

  function Right2Of64(x: bv64): bv64 { (x >> 2) | (x << 62) }

  function Right4Of64(x: bv64): bv64 { (x >> 4) | (x << 60) }

  function Right6Of64(x: bv64): bv64 { (x >> 6) | (x << 58) }

  function Right8Of64(x: bv64): bv64 { (x >> 8) | (x << 56) }

  function Right14Of64(x: bv64): bv64 { (x >> 14) | (x << 50) }

  function Right18Of64(x: bv64): bv64 { (x >> 18) | (x << 46) }

  function Right19Of64(x: bv64): bv64 { (x >> 19) | (x << 45) }

  function Right20Of64(x: bv64): bv64 { (x >> 20) | (x << 44) }

  function Right28Of64(x: bv64): bv64 { (x >> 28) | (x << 36) }

  function Right34Of64(x: bv64): bv64 { (x >> 34) | (x << 30) }

  function Right39Of64(x: bv64): bv64 { (x >> 39) | (x << 25) }

  function Right41Of64(x: bv64): bv64 { (x >> 41) | (x << 23) }

  function Right61Of64(x: bv64): bv64 { (x >> 61) | (x << 3) }

  lemma Right1Of64Turns(x: bv64)
    ensures Right1Of64(x) == Turn64(x)
  {
  }

  lemma Turned1Of64(x: bv64)
    ensures LowBits(64, Right1Of64(x)) == Rotr(LowBits(64, x), 1)
  {
    hide *;
    Right1Of64Turns(x);
    Turned64(x);
  }

  lemma Right2Of64Is(x: bv64)
    ensures Right2Of64(x) == Right1Of64(Right1Of64(x))
  {
  }

  lemma Turned2Of64(x: bv64)
    ensures LowBits(64, Right2Of64(x)) == Rotr(LowBits(64, x), 2)
  {
    hide *;
    Turned1Of64(x);
    Turned1Of64(Right1Of64(x));
    Right2Of64Is(x);
    RotateOn(LowBits(64, x), 1, 1);
  }

  lemma Right4Of64Is(x: bv64)
    ensures Right4Of64(x) == Right2Of64(Right2Of64(x))
  {
  }

  lemma Turned4Of64(x: bv64)
    ensures LowBits(64, Right4Of64(x)) == Rotr(LowBits(64, x), 4)
  {
    hide *;
    Turned2Of64(x);
    Turned2Of64(Right2Of64(x));
    Right4Of64Is(x);
    RotateOn(LowBits(64, x), 2, 2);
  }

  lemma Right6Of64Is(x: bv64)
    ensures Right6Of64(x) == Right2Of64(Right4Of64(x))
  {
  }

  lemma Turned6Of64(x: bv64)
    ensures LowBits(64, Right6Of64(x)) == Rotr(LowBits(64, x), 6)
  {
    hide *;
    Turned4Of64(x);
    Turned2Of64(Right4Of64(x));
    Right6Of64Is(x);
    RotateOn(LowBits(64, x), 4, 2);
  }

  lemma Right8Of64Is(x: bv64)
    ensures Right8Of64(x) == Right4Of64(Right4Of64(x))
  {
  }

  lemma Turned8Of64(x: bv64)
    ensures LowBits(64, Right8Of64(x)) == Rotr(LowBits(64, x), 8)
  {
    hide *;
    Turned4Of64(x);
    Turned4Of64(Right4Of64(x));
    Right8Of64Is(x);
    RotateOn(LowBits(64, x), 4, 4);
  }

  lemma Right14Of64Is(x: bv64)
    ensures Right14Of64(x) == Right6Of64(Right8Of64(x))
  {
  }

  lemma Turned14Of64(x: bv64)
    ensures LowBits(64, Right14Of64(x)) == Rotr(LowBits(64, x), 14)
  {
    hide *;
    Turned8Of64(x);
    Turned6Of64(Right8Of64(x));
    Right14Of64Is(x);
    RotateOn(LowBits(64, x), 8, 6);
  }

  lemma Right18Of64Is(x: bv64)
    ensures Right18Of64(x) == Right4Of64(Right14Of64(x))
  {
  }

  lemma Turned18Of64(x: bv64)
    ensures LowBits(64, Right18Of64(x)) == Rotr(LowBits(64, x), 18)
  {
    hide *;
    Turned14Of64(x);
    Turned4Of64(Right14Of64(x));
    Right18Of64Is(x);
    RotateOn(LowBits(64, x), 14, 4);
  }

  lemma Right19Of64Is(x: bv64)
    ensures Right19Of64(x) == Right1Of64(Right18Of64(x))
  {
  }

  lemma Turned19Of64(x: bv64)
    ensures LowBits(64, Right19Of64(x)) == Rotr(LowBits(64, x), 19)
  {
    hide *;
    Turned18Of64(x);
    Turned1Of64(Right18Of64(x));
    Right19Of64Is(x);
    RotateOn(LowBits(64, x), 18, 1);
  }

  lemma Right20Of64Is(x: bv64)
    ensures Right20Of64(x) == Right2Of64(Right18Of64(x))
  {
  }

  lemma Turned20Of64(x: bv64)
    ensures LowBits(64, Right20Of64(x)) == Rotr(LowBits(64, x), 20)
  {
    hide *;
    Turned18Of64(x);
    Turned2Of64(Right18Of64(x));
    Right20Of64Is(x);
    RotateOn(LowBits(64, x), 18, 2);
  }

  lemma Right28Of64Is(x: bv64)
    ensures Right28Of64(x) == Right14Of64(Right14Of64(x))
  {
  }

  lemma Turned28Of64(x: bv64)
    ensures LowBits(64, Right28Of64(x)) == Rotr(LowBits(64, x), 28)
  {
    hide *;
    Turned14Of64(x);
    Turned14Of64(Right14Of64(x));
    Right28Of64Is(x);
    RotateOn(LowBits(64, x), 14, 14);
  }

  lemma Right34Of64Is(x: bv64)
    ensures Right34Of64(x) == Right6Of64(Right28Of64(x))
  {
  }

  lemma Turned34Of64(x: bv64)
    ensures LowBits(64, Right34Of64(x)) == Rotr(LowBits(64, x), 34)
  {
    hide *;
    Turned28Of64(x);
    Turned6Of64(Right28Of64(x));
    Right34Of64Is(x);
    RotateOn(LowBits(64, x), 28, 6);
  }

  lemma Right39Of64Is(x: bv64)
    ensures Right39Of64(x) == Right19Of64(Right20Of64(x))
  {
  }

  lemma Turned39Of64(x: bv64)
    ensures LowBits(64, Right39Of64(x)) == Rotr(LowBits(64, x), 39)
  {
    hide *;
    Turned20Of64(x);
    Turned19Of64(Right20Of64(x));
    Right39Of64Is(x);
    RotateOn(LowBits(64, x), 20, 19);
  }

  lemma Right41Of64Is(x: bv64)
    ensures Right41Of64(x) == Right2Of64(Right39Of64(x))
  {
  }

  lemma Turned41Of64(x: bv64)
    ensures LowBits(64, Right41Of64(x)) == Rotr(LowBits(64, x), 41)
  {
    hide *;
    Turned39Of64(x);
    Turned2Of64(Right39Of64(x));
    Right41Of64Is(x);
    RotateOn(LowBits(64, x), 39, 2);
  }

  lemma Right61Of64Is(x: bv64)
    ensures Right61Of64(x) == Right20Of64(Right41Of64(x))
  {
  }

  lemma Turned61Of64(x: bv64)
    ensures LowBits(64, Right61Of64(x)) == Rotr(LowBits(64, x), 61)
  {
    hide *;
    Turned41Of64(x);
    Turned20Of64(Right41Of64(x));
    Right61Of64Is(x);
    RotateOn(LowBits(64, x), 41, 20);
  }

  function Down1(x: bv64): bv64 { x >> 1 }

  function Down2(x: bv64): bv64 { x >> 2 }

  function Down3(x: bv64): bv64 { x >> 3 }

  function Down5(x: bv64): bv64 { x >> 5 }

  function Down6(x: bv64): bv64 { x >> 6 }

  function Down7(x: bv64): bv64 { x >> 7 }

  function Down10(x: bv64): bv64 { x >> 10 }

  lemma Shifted1(n: nat, x: bv64)
    requires IsWord(n, x)
    ensures LowBits(n, Down1(x)) == Shr(LowBits(n, x), 1) && IsWord(n, Down1(x))
  {
    hide LowBits, Rotr, Shr;
    TurnOfBits(n, x);
  }

  lemma Down2Is(n: nat, x: bv64)
    requires IsWord(n, x)
    ensures Down2(x) == Down1(Down1(x)) && IsWord(n, Down2(x))
  {
  }

  lemma Shifted2(n: nat, x: bv64)
    requires IsWord(n, x)
    ensures LowBits(n, Down2(x)) == Shr(LowBits(n, x), 2) && IsWord(n, Down2(x))
  {
    hide LowBits, Shr, Down2, Down1, IsWord;
    Sized(n, x);
    Shifted1(n, x);
    Shifted1(n, Down1(x));
    Down2Is(n, x);
    RotateOn(LowBits(n, x), 1, 1);
  }

  lemma Down3Is(n: nat, x: bv64)
    requires IsWord(n, x)
    ensures Down3(x) == Down1(Down2(x)) && IsWord(n, Down3(x))
  {
  }

  lemma Shifted3(n: nat, x: bv64)
    requires IsWord(n, x)
    ensures LowBits(n, Down3(x)) == Shr(LowBits(n, x), 3) && IsWord(n, Down3(x))
  {
    hide LowBits, Shr, Down3, Down1, Down2, IsWord;
    Sized(n, x);
    Shifted2(n, x);
    Shifted1(n, Down2(x));
    Down3Is(n, x);
    RotateOn(LowBits(n, x), 2, 1);
  }

  lemma Down5Is(n: nat, x: bv64)
    requires IsWord(n, x)
    ensures Down5(x) == Down2(Down3(x)) && IsWord(n, Down5(x))
  {
  }

  lemma Shifted5(n: nat, x: bv64)
    requires IsWord(n, x)
    ensures LowBits(n, Down5(x)) == Shr(LowBits(n, x), 5) && IsWord(n, Down5(x))
  {
    hide LowBits, Shr, Down5, Down2, Down3, IsWord;
    Sized(n, x);
    Shifted3(n, x);
    Shifted2(n, Down3(x));
    Down5Is(n, x);
    RotateOn(LowBits(n, x), 3, 2);
  }

  lemma Down6Is(n: nat, x: bv64)
    requires IsWord(n, x)
    ensures Down6(x) == Down3(Down3(x)) && IsWord(n, Down6(x))
  {
  }

  lemma Shifted6(n: nat, x: bv64)
    requires IsWord(n, x)
    ensures LowBits(n, Down6(x)) == Shr(LowBits(n, x), 6) && IsWord(n, Down6(x))
  {
    hide LowBits, Shr, Down6, Down3, IsWord;
    Sized(n, x);
    Shifted3(n, x);
    Shifted3(n, Down3(x));
    Down6Is(n, x);
    RotateOn(LowBits(n, x), 3, 3);
  }

  lemma Down7Is(n: nat, x: bv64)
    requires IsWord(n, x)
    ensures Down7(x) == Down1(Down6(x)) && IsWord(n, Down7(x))
  {
  }

  lemma Shifted7(n: nat, x: bv64)
    requires IsWord(n, x)
    ensures LowBits(n, Down7(x)) == Shr(LowBits(n, x), 7) && IsWord(n, Down7(x))
  {
    hide LowBits, Shr, Down7, Down1, Down6, IsWord;
    Sized(n, x);
    Shifted6(n, x);
    Shifted1(n, Down6(x));
    Down7Is(n, x);
    RotateOn(LowBits(n, x), 6, 1);
  }

  lemma Down10Is(n: nat, x: bv64)
    requires IsWord(n, x)
    ensures Down10(x) == Down5(Down5(x)) && IsWord(n, Down10(x))
  {
  }

  lemma Shifted10(n: nat, x: bv64)
    requires IsWord(n, x)
    ensures LowBits(n, Down10(x)) == Shr(LowBits(n, x), 10) && IsWord(n, Down10(x))
  {
    hide LowBits, Shr, Down10, Down5, IsWord;
    Sized(n, x);
    Shifted5(n, x);
    Shifted5(n, Down5(x));
    Down10Is(n, x);
    RotateOn(LowBits(n, x), 5, 5);
  }
}
