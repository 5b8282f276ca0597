// The whole circuit: message, constants, blocks, digest.
module Sha2Circuit {
  import opened Bits
  import opened BitStrings
  import opened Circuit
  import opened CircuitBits
  import opened CircuitWords
  import opened Sha2
  import opened Sha2Gadgets
  import opened Sha2Steps
  import opened Sha2Block
  import opened Sha2Message

  // ---- Constants ----

  /** The 32-bit digits of a big integer, least significant first, without leading zeros. */
  function Digits32(x: nat): seq<nat>
  {
    if x == 0 then [] else [x % TWO32] + Digits32(x / TWO32)
  }

  lemma {:induction false} ValueOfDigits(w: Assignment, x: Word, value: nat)
    requires |x| == |Digits32(value)| && forall i :: 0 <= i < |x| ==> w(x[i]) == Digits32(value)[i]
    ensures Limbs32(w, x) && WordValue(w, x) == value
  {
    if value > 0 {
      assert w(x[0]) == value % TWO32;
      forall i | 0 <= i < |x| - 1
        ensures w(x[1..][i]) == Digits32(value / TWO32)[i]
      {
        assert x[1..][i] == x[i + 1] && Digits32(value)[i + 1] == Digits32(value / TWO32)[i];
      }
      ValueOfDigits(w, x[1..], value / TWO32);
      forall i | 0 <= i < |x|
        ensures w(x[i]) < TWO32
      {
        if i > 0 {
          assert x[i] == x[1..][i - 1];
        }
      }
    }
  }

  /** A constant has as many digits as a word has limbs. */
  predicate FullWord(limbs: nat, x: nat)
  {
    |Digits32(x)| == limbs && forall d <- Digits32(x) :: d < TWO32
  }

  ghost predicate FullWords(v: Variant)
  {
    && (forall i :: 0 <= i < |v.k| ==> FullWord(v.limbs, v.k[i]))
    && FullWord(v.limbs, v.h.a) && FullWord(v.limbs, v.h.b) && FullWord(v.limbs, v.h.c) && FullWord(v.limbs, v.h.d)
    && FullWord(v.limbs, v.h.e) && FullWord(v.limbs, v.h.f) && FullWord(v.limbs, v.h.g) && FullWord(v.limbs, v.h.h)
  }

  /** `constant_u32`, `constant_biguint` */
  method ConstantWord(builder: CircuitBuilder, v: Variant, value: nat) returns (x: Word)
    requires builder.Valid() && FullWord(v.limbs, value)
    modifies builder
    ensures builder.Grown() && IsWord(builder, x, v.limbs)
    ensures forall w: Assignment :: w in builder.models ==> WordValue(w, x) == value
  {
    hide WordValue;
    var digits := Digits32(value);
    x := [];
    for i: nat := 0 to |digits|
      invariant builder.Grown() && |x| == i && InUse(builder.wires, x)
      invariant forall w: Assignment :: w in builder.models ==> forall j :: 0 <= j < i ==> w(x[j]) == digits[j]
    {
      assert digits[i] in digits;
      var t := builder.NewConstant(digits[i]);
      x := x + [t];
    }
    forall w: Assignment | w in builder.models
      ensures Limbs32(w, x) && WordValue(w, x) == value
    {
      ValueOfDigits(w, x, value);
    }
  }

  /** The round constants. */
  method ConstantTable(builder: CircuitBuilder, v: Variant) returns (k: seq<Word>)
    requires builder.Valid() && FullWords(v)
    modifies builder
    ensures builder.Grown() && IsTable(builder, k, v)
  {
    hide WordValue, Limbs32, FullWord;
    k := [];
    for i: nat := 0 to |v.k|
      invariant builder.Grown() && |k| == i && AllWords(builder, k, v.limbs)
      invariant forall w: Assignment :: w in builder.models ==> CarriesTable(w, k, v.k[..i])
    {
      var word := ConstantWord(builder, v, v.k[i]);
      k := k + [word];
    }
    assert v.k[..|v.k|] == v.k;
  }

  method ConstantFour(builder: CircuitBuilder, v: Variant, x: seq<nat>) returns (a: Word, b: Word, c: Word, d: Word)
    requires builder.Valid() && |x| == 4 && forall i :: 0 <= i < 4 ==> FullWord(v.limbs, x[i])
    modifies builder
    ensures builder.Grown() && IsWord(builder, a, v.limbs) && IsWord(builder, b, v.limbs)
    ensures IsWord(builder, c, v.limbs) && IsWord(builder, d, v.limbs)
    ensures forall w: Assignment :: w in builder.models ==>
              WordValue(w, a) == x[0] && WordValue(w, b) == x[1] && WordValue(w, c) == x[2] && WordValue(w, d) == x[3]
  {
    hide WordValue, Limbs32, FullWord;
    a := ConstantWord(builder, v, x[0]);
    b := ConstantWord(builder, v, x[1]);
    c := ConstantWord(builder, v, x[2]);
    d := ConstantWord(builder, v, x[3]);
  }

  /** The initial hash value. */
  method InitialState(builder: CircuitBuilder, v: Variant) returns (s: Variables)
    requires builder.Valid() && FullWords(v)
    modifies builder
    ensures builder.Grown() && AreWords(builder, s, v.limbs)
    ensures forall w: Assignment :: w in builder.models ==> Values(w, s) == v.h
  {
    hide WordValue, Limbs32, FullWord;
    var a, b, c, d := ConstantFour(builder, v, [v.h.a, v.h.b, v.h.c, v.h.d]);
    var e, f, g, h := ConstantFour(builder, v, [v.h.e, v.h.f, v.h.g, v.h.h]);
    s := Variables(a, b, c, d, e, f, g, h);
  }

  // ---- Blocks ----

  lemma NextBlock(w: Assignment, v: Variant, message: seq<Wire>, at: nat, s: Working, next: Working)
    requires v.limbs > 0 && at + v.BlockBits() <= |message|
    requires var bits := message[at..at + v.BlockBits()];
             |Words(v.W(), BitValues(w, bits))| == 16 && next == HashBlock(v, s, Words(v.W(), BitValues(w, bits)))
    ensures HashBlocks(v, s, BitValues(w, message[at..]))
            == HashBlocks(v, next, BitValues(w, message[at + v.BlockBits()..]))
  {
    hide HashBlock, Words;
    var b := BitValues(w, message[at..]);
    assert b[..v.BlockBits()] == BitValues(w, message[at..at + v.BlockBits()]);
    assert b[v.BlockBits()..] == BitValues(w, message[at + v.BlockBits()..]);
  }

  /** The hash of what remains, from the hash value of what is done. */
  ghost predicate Remaining(models: iset<Assignment>, v: Variant, start: Variables, s: Variables, message: seq<Wire>,
                            at: nat)
    requires v.limbs > 0 && at <= |message|
  {
    forall w: Assignment :: w in models ==>
      HashBlocks(v, Values(w, s), BitValues(w, message[at..])) == HashBlocks(v, Values(w, start), BitValues(w, message))
  }

  /** One block of the padded message. */
  method NextBlockCircuit(builder: CircuitBuilder, v: Variant, k: seq<Word>, s: Variables, message: seq<Wire>, at: nat,
                          ghost start: Variables)
    returns (next: Variables)
    requires builder.Valid() && v.Valid() && IsTable(builder, k, v) && AreBits(builder, message, |message|) &&
             AreWords(builder, s, v.limbs)
    requires at + v.BlockBits() <= |message| && Remaining(builder.models, v, start, s, message, at)
    modifies builder
    ensures builder.Grown() && IsTable(builder, k, v) && AreBits(builder, message, |message|) &&
            AreWords(builder, next, v.limbs)
    ensures Remaining(builder.models, v, start, next, message, at + v.BlockBits())
  {
    hide HashBlock, HashBlocks, WordValue, Words, AllBits, Limbs32;
    ghost var before := builder.models;
    ChunkIsBits(builder, message, |message|, at, v.BlockBits());
    next := BlockCircuit(builder, v, k, s, message[at..at + v.BlockBits()]);
    forall w: Assignment | w in builder.models
      ensures HashBlocks(v, Values(w, next), BitValues(w, message[at + v.BlockBits()..]))
           == HashBlocks(v, Values(w, start), BitValues(w, message))
    {
      NextBlock(w, v, message, at, Values(w, s), Values(w, next));
    }
  }

  lemma NothingRemains(w: Assignment, v: Variant, s: Working, message: seq<Wire>)
    requires v.limbs > 0
    ensures HashBlocks(v, s, BitValues(w, message[|message|..])) == s
  {
    assert message[|message|..] == [];
  }

  /** The loop over all blocks. */
  method Blocks(builder: CircuitBuilder, v: Variant, k: seq<Word>, start: Variables, message: seq<Wire>)
    returns (s: Variables)
    requires builder.Valid() && v.Valid() && IsTable(builder, k, v) && AreBits(builder, message, |message|) &&
             AreWords(builder, start, v.limbs)
    requires Multiple(|message|, v.BlockBits())
    modifies builder
    ensures builder.Grown() && AreWords(builder, s, v.limbs) && AreBits(builder, message, |message|)
    ensures forall w: Assignment :: w in builder.models ==>
            Values(w, s) == HashBlocks(v, Values(w, start), BitValues(w, message))
  {
    hide HashBlocks, WordValue, Limbs32, AllBits, IsTableIn;
    s := start;
    var index: nat := 0;
    assert message[0..] == message;
    while index < |message|
      invariant index <= |message| && Multiple(|message| - index, v.BlockBits())
      invariant builder.Grown() && IsTable(builder, k, v) && AreBits(builder, message, |message|) &&
                AreWords(builder, s, v.limbs)
      invariant Remaining(builder.models, v, start, s, message, index)
    {
      s := NextBlockCircuit(builder, v, k, s, message, index, start);
      index := index + v.BlockBits();
    }
    forall w: Assignment | w in builder.models
      ensures Values(w, s) == HashBlocks(v, Values(w, start), BitValues(w, message))
    {
      NothingRemains(w, v, Values(w, s), message);
    }
  }

  // ---- Digest ----

  /** The bits of one word, appended. */
  method AppendWord(builder: CircuitBuilder, v: Variant, digest: seq<Wire>, x: Word,
                    ghost bits: Assignment -> seq<bool>) returns (res: seq<Wire>)
    requires builder.Valid() && IsWord(builder, x, v.limbs) && InUse(builder.wires, digest)
    requires forall w: Assignment :: w in builder.models ==> Carry(w, digest, bits(w))
    modifies builder
    ensures builder.Grown() && InUse(builder.wires, res)
    ensures forall w: Assignment :: w in builder.models ==> Carry(w, res, bits(w) + ToBits(v.W(), WordValue(w, x)))
  {
    hide WordValue, ToBits, Limbs32;
    var wires := WordToBits(builder, x, 32);
    res := digest + wires;
    forall w: Assignment | w in builder.models
      ensures Carry(w, res, bits(w) + ToBits(v.W(), WordValue(w, x)))
    {
      BitValuesConcat(w, digest, wires);
    }
  }

  /** The bits of the first n words of a list. */
  function WordsBits(v: Variant, w: Assignment, words: seq<Word>, n: nat): seq<bool>
    requires n <= |words|
  {
    if n == 0 then [] else WordsBits(v, w, words, n - 1) + ToBits(v.W(), WordValue(w, words[n - 1]))
  }

  function WordsBitsOf(v: Variant, words: seq<Word>, n: nat): Assignment -> seq<bool>
    requires n <= |words|
  {
    (w: Assignment) => WordsBits(v, w, words, n)
  }

  function AsList(s: Variables): seq<Word>
  {
    [s.a, s.b, s.c, s.d, s.e, s.f, s.g, s.h]
  }

  lemma StateBitsAsList(v: Variant, w: Assignment, s: Variables, n: nat)
    requires n == 8
    ensures WordsBits(v, w, AsList(s), n) == StateBits(v, Values(w, s))
  {
    var words := AsList(s);
    assert WordsBits(v, w, words, n - 8) == [];
    assert WordsBits(v, w, words, n - 7) == ToBits(v.W(), WordValue(w, s.a));
    assert WordsBits(v, w, words, n - 6) == WordsBits(v, w, words, n - 7) + ToBits(v.W(), WordValue(w, s.b));
    assert WordsBits(v, w, words, n - 5) == WordsBits(v, w, words, n - 6) + ToBits(v.W(), WordValue(w, s.c));
    assert WordsBits(v, w, words, n - 4) == WordsBits(v, w, words, n - 5) + ToBits(v.W(), WordValue(w, s.d));
    assert WordsBits(v, w, words, n - 3) == WordsBits(v, w, words, n - 4) + ToBits(v.W(), WordValue(w, s.e));
    assert WordsBits(v, w, words, n - 2) == WordsBits(v, w, words, n - 3) + ToBits(v.W(), WordValue(w, s.f));
    assert WordsBits(v, w, words, n - 1) == WordsBits(v, w, words, n - 2) + ToBits(v.W(), WordValue(w, s.g));
  }

  /** The last loop of `make_circuits`. */
  method DigestWires(builder: CircuitBuilder, v: Variant, s: Variables) returns (digest: seq<Wire>)
    requires builder.Valid() && AreWords(builder, s, v.limbs)
    modifies builder
    ensures builder.Grown() && InUse(builder.wires, digest)
    ensures forall w: Assignment :: w in builder.models ==> Carry(w, digest, StateBits(v, Values(w, s)))
  {
    hide WordValue, ToBits, Limbs32, Carry, StateBits;
    var words := AsList(s);
    digest := [];
    NothingWritten(builder.models, v, words);
    for i: nat := 0 to 8
      invariant builder.Grown() && InUse(builder.wires, digest) && AllWords(builder, words, v.limbs)
      invariant forall w: Assignment :: w in builder.models ==> Carry(w, digest, WordsBitsOf(v, words, i)(w))
    {
      digest := AppendWord(builder, v, digest, words[i], WordsBitsOf(v, words, i));
      WordsBitsNext(v, words, i);
    }
    forall w: Assignment | w in builder.models
      ensures Carry(w, digest, StateBits(v, Values(w, s)))
    {
      StateBitsAsList(v, w, s, 8);
    }
  }

  lemma NothingWritten(models: iset<Assignment>, v: Variant, words: seq<Word>)
    ensures forall w: Assignment :: w in models ==> Carry(w, [], WordsBitsOf(v, words, 0)(w))
  {
  }

  lemma WordsBitsNext(v: Variant, words: seq<Word>, i: nat)
    requires i < |words|
    ensures forall w: Assignment {:trigger WordsBitsOf(v, words, i + 1)(w)} ::
              WordsBitsOf(v, words, i + 1)(w) == WordsBitsOf(v, words, i)(w) + ToBits(v.W(), WordValue(w, words[i]))
  {
  }

  // ---- The circuit ----

  /**
   * Every assignment that satisfies the constraints and has bits on the message wires has their digest on the digest
   * wires.
   */
  ghost predicate ComputesDigest(v: Variant, gates: seq<Gate>, inputs: seq<Wire>, message: seq<Wire>, digest: seq<Wire>)
    requires v.limbs > 0
  {
    forall w: Assignment :: Satisfies(w, gates, inputs) ==> Carry(w, digest, Digest(v, BitValues(w, message)))
  }

  /** From the padded message to the digest. */
  method HashPadded(builder: CircuitBuilder, v: Variant, message: seq<Wire>) returns (digest: seq<Wire>)
    requires builder.Valid() && v.Valid() && FullWords(v) && AreBits(builder, message, |message|)
    requires Multiple(|message|, v.BlockBits())
    modifies builder
    ensures builder.Grown()
    ensures forall w: Assignment :: w in builder.models ==>
              Carry(w, digest, StateBits(v, HashBlocks(v, v.h, BitValues(w, message))))
  {
    hide HashBlocks, WordValue, StateBits, Carry, FullWords, IsTableIn, Limbs32, AllBits, BitValues;
    var start := InitialState(builder, v);
    var k := ConstantTable(builder, v);
    var s := Blocks(builder, v, k, start, message);
    digest := DigestWires(builder, v, s);
  }

  /** From the finished message wires to the digest. */
  method HashMessage(builder: CircuitBuilder, v: Variant, message: seq<Wire>, length: nat) returns (digest: seq<Wire>)
    requires builder.Valid() && v.Valid() && FullWords(v) && CarriesPadded(builder, v, message, length)
    requires |message| == PaddedLength(v, length)
    modifies builder
    ensures builder.Grown()
    ensures forall w: Assignment :: w in builder.models ==> Carry(w, digest, Digest(v, BitValues(w, message[..length])))
  {
    hide HashBlocks, Padding, StateBits, Carry, FullWords;
    MultipleProduct((length + v.LengthBits() + 1 + v.BlockBits() - 1) / v.BlockBits(), v.BlockBits());
    digest := HashPadded(builder, v, message);
  }

  /**
   * `make_circuits`. It fails exactly when the length overflows its integer type or when L mod 512 is 447
   * (for 128-bit lengths: L mod 1024 is 895). Otherwise the constraints compute the digest of the message,
   * and they can be satisfied for every message: the honest assignment does so.
   */
  method MakeCircuits(builder: CircuitBuilder, v: Variant, length: nat)
    returns (ok: bool, message: seq<Wire>, digest: seq<Wire>)
    requires builder.Valid() && v.Valid() && FullWords(v)
    modifies builder
    ensures ok <==> NoOverflow(v, length) && length % v.BlockBits() != v.BlockBits() - v.LengthBits() - 1
    ensures ok ==> length <= |message| && builder.inputs == old(builder.inputs) + message[..length]
    ensures ok ==> ComputesDigest(v, builder.gates, builder.inputs, message[..length], digest)
    ensures ok ==> Satisfies(builder.honest, builder.gates, builder.inputs)
    ensures ok ==> forall i :: 0 <= i < length ==>
            builder.honest(message[i]) == if builder.message(|old(builder.inputs)| + i) then 1 else 0
  {
    hide Digest, Carry, FullWords, CarriesPadded;
    digest := [];
    ok, message := MessageWires(builder, v, length);
    if ok {
      digest := HashMessage(builder, v, message, length);
      forall i | 0 <= i < length
        ensures builder.honest(message[i]) == if builder.message(|old(builder.inputs)| + i) then 1 else 0
      {
        assert builder.inputs[|old(builder.inputs)| + i] == message[..length][i];
      }
    }
  }

  /** The constraints determine the digest: assignments that agree on the message agree on every digest wire. */
  lemma ConstraintsDetermineDigest(v: Variant, gates: seq<Gate>, inputs: seq<Wire>, message: seq<Wire>,
                                   digest: seq<Wire>, w: Assignment, w': Assignment, i: nat)
    requires v.limbs > 0 && ComputesDigest(v, gates, inputs, message, digest)
    requires Satisfies(w, gates, inputs) && Satisfies(w', gates, inputs)
    requires forall j :: 0 <= j < |message| ==> w(message[j]) == w'(message[j])
    requires i < |digest|
    ensures w(digest[i]) == w'(digest[i])
  {
    hide Digest;
    assert BitValues(w, message) == BitValues(w', message);
    CarryAt(w, digest, Digest(v, BitValues(w, message)), i);
    CarryAt(w', digest, Digest(v, BitValues(w, message)), i);
  }
}
