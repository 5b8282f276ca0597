// The message wires: the inputs, followed by the padding as constants.
module Sha2Message {
  import opened Bits
  import opened BitStrings
  import opened Circuit
  import opened CircuitBits
  import opened CircuitWords
  import opened Sha2
  import opened Sha2Gadgets

  // ---- The arithmetic of the padding ----

  /** The length of the padded message, as the code computes it. */
  function PaddedLength(v: Variant, length: nat): nat
    requires v.limbs > 0
  {
    v.BlockBits() * ((length + v.LengthBits() + 1 + v.BlockBits() - 1) / v.BlockBits())
  }

  /** The additions do not leave the integer type of the length (64 or 128 bits). */
  predicate NoOverflow(v: Variant, length: nat)
  {
    length + v.LengthBits() + 1 + v.BlockBits() - 1 < Pow2(v.LengthBits())
  }

  /** The code's padding is that of the standard: a one bit, the smallest fill of zeros, and the length. */
  lemma PaddingLengths(v: Variant, length: nat)
    requires v.limbs == 1 || v.limbs == 2
    ensures PaddedLength(v, length) - v.LengthBits() - length == 1 + ZeroBits(v, length)
  {
    if v.limbs == 1 {
    } else {
    }
  }

  lemma PaddedLengthWhole(v: Variant, length: nat)
    requires v.limbs == 1 || v.limbs == 2
    ensures PaddedLength(v, length) % v.BlockBits() == 0
  {
    if v.limbs == 1 {
    } else {
    }
  }

  /** With the sum in range, the padded length is in range too. */
  lemma PaddedLengthInRange(v: Variant, length: nat)
    requires (v.limbs == 1 || v.limbs == 2) && NoOverflow(v, length)
    ensures PaddedLength(v, length) < Pow2(v.LengthBits())
  {
    if v.limbs == 1 {
    } else {
    }
  }

  /** The assertion p > 1 fails exactly when the one bit leaves no zero bit: never for whole bytes. */
  lemma AssertionOnPadding(v: Variant, length: nat)
    requires v.limbs == 1 || v.limbs == 2
    ensures PaddedLength(v, length) - v.LengthBits() - length > 1
       <==> length % v.BlockBits() != v.BlockBits() - v.LengthBits() - 1
    ensures length % 8 == 0 ==> PaddedLength(v, length) - v.LengthBits() - length > 1
  {
    if v.limbs == 1 {
    } else {
    }
  }

  // ---- The wires ----

  /** Wires that carry `bits` in every model. */
  ghost predicate Constants(builder: CircuitBuilder, wires: seq<Wire>, bits: seq<bool>)
    reads builder
  {
    |wires| == |bits| && InUse(builder.wires, wires) && forall w: Assignment :: w in builder.models ==>
      Carry(w, wires, bits)
  }

  lemma CarrySnoc(w: Assignment, wires: seq<Wire>, bits: seq<bool>, t: Wire, b: bool)
    requires Carry(w, wires, bits) && CarriesBit(w(t), b)
    ensures Carry(w, wires + [t], bits + [b])
  {
    BitValuesConcat(w, wires, [t]);
  }

  /** `constant_bool`, appended to a list. */
  method AppendBit(builder: CircuitBuilder, wires: seq<Wire>, b: bool, ghost bits: seq<bool>) returns (res: seq<Wire>)
    requires builder.Valid() && Constants(builder, wires, bits)
    modifies builder
    ensures builder.Grown() && Constants(builder, res, bits + [b])
  {
    hide Carry;
    var t := builder.NewConstant(if b then 1 else 0);
    res := wires + [t];
    forall w: Assignment | w in builder.models
      ensures Carry(w, res, bits + [b])
    {
      CarrySnoc(w, wires, bits, t, b);
    }
  }

  /** Bit i of the length field, most significant first: `(length >> (n - 1 - i)) & 1`. */
  lemma {:induction false} LengthBit(n: nat, length: nat, i: nat)
    requires i < n
    ensures ToBits(n, length)[i] == (length / Pow2(n - 1 - i) % 2 == 1)
    decreases n
  {
    if i < n - 1 {
      LengthBit(n - 1, length / 2, i);
      DivideTwice(length, Pow2(n - 2 - i));
    } else {
      assert Pow2(n - 1 - i) == 1;
    }
  }

  lemma DivideTwice(x: nat, m: nat)
    requires m > 0
    ensures x / 2 / m == x / (2 * m)
  {
    var q, r := x / 2 / m, x / 2 % m;
    assert x / 2 == q * m + r && x == 2 * (x / 2) + x % 2;
    assert q * (2 * m) == 2 * (q * m);
    DivModUnique(x, 2 * m, q, 2 * r + x % 2);
  }

  method AppendZeros(builder: CircuitBuilder, wires: seq<Wire>, n: nat, ghost bits: seq<bool>) returns (res: seq<Wire>)
    requires builder.Valid() && Constants(builder, wires, bits)
    modifies builder
    ensures builder.Grown() && Constants(builder, res, bits + Repeated(false, n))
  {
    hide Constants;
    res := wires;
    assert bits + Repeated(false, 0) == bits;
    for i: nat := 0 to n
      invariant builder.Grown() && Constants(builder, res, bits + Repeated(false, i))
    {
      res := AppendBit(builder, res, false, bits + Repeated(false, i));
      assert bits + Repeated(false, i) + [false] == bits + Repeated(false, i + 1);
    }
  }

  /** The length field, bit by bit. */
  method AppendLength(builder: CircuitBuilder, wires: seq<Wire>, n: nat, length: nat, ghost bits: seq<bool>)
    returns (res: seq<Wire>)
    requires builder.Valid() && Constants(builder, wires, bits)
    modifies builder
    ensures builder.Grown() && Constants(builder, res, bits + ToBits(n, length))
  {
    hide Constants, Pow2;
    res := wires;
    ghost var field := ToBits(n, length);
    assert bits + field[..0] == bits;
    for i: nat := 0 to n
      invariant builder.Grown() && Constants(builder, res, bits + field[..i])
    {
      LengthBit(n, length, i);
      var b := length / Pow2(n - 1 - i) % 2 == 1;
      res := AppendBit(builder, res, b, bits + field[..i]);
      assert bits + field[..i] + [b] == bits + field[..i + 1];
    }
    assert field[..n] == field;
  }

  /** The constants behind the message. */
  method PaddingWires(builder: CircuitBuilder, v: Variant, length: nat, p: nat) returns (wires: seq<Wire>)
    requires builder.Valid() && v.limbs > 0 && p == 1 + ZeroBits(v, length)
    modifies builder
    ensures builder.Grown() && Constants(builder, wires, PaddingBits(v, length))
  {
    wires := AppendBit(builder, [], true, []);
    assert [] + [true] == [true];
    wires := AppendZeros(builder, wires, p - 1, [true]);
    wires := AppendLength(builder, wires, v.LengthBits(), length, [true] + Repeated(false, p - 1));
  }

  /** What adding message wires keeps: like other growth, except that the list of inputs gets longer. */
  twostate predicate Extended(builder: CircuitBuilder, added: seq<Wire>)
    reads builder
  {
    && builder.Valid() && builder.models <= old(builder.models) && old(builder.wires) <= builder.wires
    && builder.inputs == old(builder.inputs) + added
  }

  /** The message bits: inputs without a constraint, assumed to carry bits. */
  method InputWires(builder: CircuitBuilder, length: nat) returns (wires: seq<Wire>)
    requires builder.Valid()
    modifies builder
    ensures Extended(builder, wires) && AreBits(builder, wires, length)
  {
    wires := [];
    for i: nat := 0 to length
      invariant Extended(builder, wires) && AreBits(builder, wires, i)
    {
      var t := builder.AddInput();
      wires := wires + [t];
    }
  }

  /** In every model the wires carry the padded form of the message on the first `length` of them. */
  ghost predicate CarriesPadded(builder: CircuitBuilder, v: Variant, wires: seq<Wire>, length: nat)
    reads builder
    requires v.limbs > 0
  {
    && length <= |wires| && InUse(builder.wires, wires)
    && forall w: Assignment :: w in builder.models ==>
         AllBits(w, wires) && BitValues(w, wires) == Padding(v, BitValues(w, wires[..length]))
  }

  lemma PaddedMessage(w: Assignment, v: Variant, inputs: seq<Wire>, rest: seq<Wire>)
    requires v.limbs > 0 && AllBits(w, inputs) && Carry(w, rest, PaddingBits(v, |inputs|))
    ensures AllBits(w, inputs + rest) && (inputs + rest)[..|inputs|] == inputs
    ensures BitValues(w, inputs + rest) == Padding(v, BitValues(w, inputs))
  {
    hide PaddingBits;
    BitValuesConcat(w, inputs, rest);
  }

  /** The first part of `make_circuits`; without success an addition overflows or the assertion on p fails. */
  method MessageWires(builder: CircuitBuilder, v: Variant, length: nat) returns (ok: bool, message: seq<Wire>)
    requires builder.Valid() && (v.limbs == 1 || v.limbs == 2)
    modifies builder
    ensures ok <==> NoOverflow(v, length) && length % v.BlockBits() != v.BlockBits() - v.LengthBits() - 1
    ensures ok ==> length <= |message| == PaddedLength(v, length) && Extended(builder, message[..length])
    ensures ok ==> CarriesPadded(builder, v, message, length)
  {
    message := [];
    var p := PaddedLength(v, length) - v.LengthBits() - length;
    AssertionOnPadding(v, length);
    PaddingLengths(v, length);
    ok := NoOverflow(v, length) && p > 1;
    if ok {
      var inputs := InputWires(builder, length);
      var rest := PaddingWires(builder, v, length, p);
      message := inputs + rest;
      forall w: Assignment | w in builder.models
        ensures AllBits(w, message) && BitValues(w, message) == Padding(v, BitValues(w, message[..length]))
      {
        PaddedMessage(w, v, inputs, rest);
      }
    }
  }

  // ---- Bits of a byte string ----

  /** The bits of bytes, most significant bit first. */
  function ByteBits(bytes: seq<nat>): seq<bool>
  {
    if bytes == [] then [] else ByteBits(bytes[..|bytes| - 1]) + ToBits(8, bytes[|bytes| - 1])
  }

  lemma {:induction false} ByteBitsLength(bytes: seq<nat>)
    ensures |ByteBits(bytes)| == 8 * |bytes|
  {
    if bytes != [] {
      ByteBitsLength(bytes[..|bytes| - 1]);
    }
  }

  /** The bits of one byte, appended. */
  method AppendByte(bits: seq<bool>, byte: nat, n: nat) returns (res: seq<bool>)
    requires n == 8
    ensures res == bits + ToBits(n, byte)
  {
    hide ToBits, Pow2;
    res := bits;
    assert bits + ToBits(n, byte)[..0] == bits;
    for j: nat := 0 to n
      invariant res == bits + ToBits(n, byte)[..j]
    {
      LengthBit(n, byte, j);
      res := res + [byte / Pow2(n - 1 - j) % 2 == 1];
      assert bits + ToBits(n, byte)[..j] + [ToBits(n, byte)[j]] == bits + ToBits(n, byte)[..j + 1];
    }
    assert ToBits(n, byte)[..n] == ToBits(n, byte);
  }

  /** `array_to_bits` */
  method ArrayToBits(bytes: seq<nat>) returns (bits: seq<bool>)
    ensures bits == ByteBits(bytes)
  {
    bits := [];
    for i: nat := 0 to |bytes|
      invariant bits == ByteBits(bytes[..i])
    {
      bits := AppendByte(bits, bytes[i], 8);
      assert bytes[..i + 1][..i] == bytes[..i];
    }
    assert bytes[..|bytes|] == bytes;
  }

  /** The bits of a byte string are never of a length for which the assertion on p fails. */
  lemma WholeBytesArePadded(v: Variant, bytes: seq<nat>)
    requires v.limbs == 1 || v.limbs == 2
    ensures |ByteBits(bytes)| % v.BlockBits() != v.BlockBits() - v.LengthBits() - 1
  {
    ByteBitsLength(bytes);
    AssertionOnPadding(v, 8 * |bytes|);
  }
}
