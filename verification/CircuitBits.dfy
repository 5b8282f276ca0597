// Splitting wires into bits, summing bits, and 32-bit additions.
module CircuitBits {
  import opened Field
  import opened Bits
  import opened BitStrings
  import opened Circuit

  // ---- Bits on wires ----

  ghost predicate AllBits(w: Assignment, bits: seq<Wire>)
  {
    forall i :: 0 <= i < |bits| ==> IsBit(w(bits[i]))
  }

  /** The bits that the wires carry. */
  function BitValues(w: Assignment, bits: seq<Wire>): (r: seq<bool>)
    ensures |r| == |bits|
  {
    seq(|bits|, i requires 0 <= i < |bits| => w(bits[i]) == 1)
  }

  lemma BitValuesConcat(w: Assignment, a: seq<Wire>, b: seq<Wire>)
    ensures BitValues(w, a + b) == BitValues(w, a) + BitValues(w, b)
  {
  }

  /** A sum of bits is the number they write, the last limb being the most significant bit. */
  lemma {:induction false} LittleEndianIsNat(w: Assignment, limbs: seq<Wire>)
    requires AllBits(w, limbs)
    ensures LittleEndian(w, limbs) == Nat(BitValues(w, Reversed(limbs)))
  {
    if limbs != [] {
      forall i | 0 <= i < |limbs| - 1
        ensures IsBit(w(limbs[1..][i]))
      {
        assert limbs[1..][i] == limbs[i + 1];
      }
      LittleEndianIsNat(w, limbs[1..]);
      BitValuesConcat(w, Reversed(limbs[1..]), [limbs[0]]);
      assert IsBit(w(limbs[0])) && BitValues(w, [limbs[0]]) == [w(limbs[0]) == 1];
      NatSnoc(BitValues(w, Reversed(limbs[1..])), w(limbs[0]) == 1);
    }
  }

  lemma ReversedTwice<T>(s: seq<T>)
    ensures Reversed(Reversed(s)) == s
  {
  }

  lemma ReversedBits(w: Assignment, bits: seq<Wire>)
    ensures AllBits(w, Reversed(bits)) <==> AllBits(w, bits)
  {
    if AllBits(w, Reversed(bits)) {
      forall i | 0 <= i < |bits|
        ensures IsBit(w(bits[i]))
      {
        assert bits[i] == Reversed(bits)[|bits| - 1 - i];
      }
    }
  }

  lemma NatBelowField(b: seq<bool>, n: nat)
    requires |b| <= n == 32
    ensures Nat(b) < TWO32
  {
    NatBound(b);
    Pow2Monotone(|b|, n);
    PowerOf32(n);
  }

  // ---- Splitting ----

  /** The digits that the generator puts on the limbs, least significant first. */
  function Digits(n: nat, x: nat): (r: seq<Fp>)
    ensures |r| == n
  {
    if n == 0 then [] else [x % 2] + Digits(n - 1, x / 2)
  }

  lemma {:induction false} DigitsSum(w: Assignment, limbs: seq<Wire>, n: nat, x: nat)
    requires |limbs| == n && x < Pow2(n) && forall i :: 0 <= i < n ==> w(limbs[i]) == Digits(n, x)[i]
    ensures AllBits(w, limbs) && LittleEndian(w, limbs) == x
  {
    if n > 0 {
      assert w(limbs[0]) == x % 2;
      forall i | 0 <= i < n - 1
        ensures w(limbs[1..][i]) == Digits(n - 1, x / 2)[i]
      {
        assert limbs[1..][i] == limbs[i + 1];
      }
      DigitsSum(w, limbs[1..], n - 1, x / 2);
      forall i | 0 <= i < n
        ensures IsBit(w(limbs[i]))
      {
        if i > 0 {
          assert limbs[i] == limbs[1..][i - 1];
        }
      }
    }
  }

  /** The bits on the limbs, the last limb first, write the value of the wire. */
  ghost predicate Writes(w: Assignment, limbs: seq<Wire>, x: Wire)
  {
    AllBits(w, limbs) && BitValues(w, Reversed(limbs)) == ToBits(|limbs|, w(x))
  }

  /** The limbs are determined by the value: 32 bits cannot wrap around the field. */
  lemma SplitIsUnique(w: Assignment, x: Wire, limbs: seq<Wire>, n: nat)
    requires |limbs| == n == 32 && AllBits(w, limbs) && w(x) == LittleEndian(w, limbs) % P
    ensures Writes(w, limbs, x) && w(x) < TWO32
  {
    var b := BitValues(w, Reversed(limbs));
    LittleEndianIsNat(w, limbs);
    NatBelowField(b, n);
    BelowField(LittleEndian(w, limbs));
    BitsOfNat(b);
  }

  lemma BelowField(x: nat)
    requires x < TWO32
    ensures x % P == x
  {
  }

  function FreshWires(from: nat, n: nat): (r: seq<Wire>)
    ensures |r| == n
  {
    seq(n, i requires 0 <= i < n => from + i)
  }

  /** The generator's digits meet the constraint. */
  lemma DigitsHold(w: Assignment, x: Wire, from: Wire, n: nat, limbs: seq<Wire>, values: seq<Fp>)
    requires x < from && n == 32 && w(x) < TWO32 && limbs == FreshWires(from, n) && values == Digits(n, w(x))
    ensures |values| == n && Holds(BaseSum(x, limbs), Extend(w, from, values))
  {
    hide Pow2;
    PowerOf32(n);
    DigitsSum(Extend(w, from, values), limbs, n, w(x));
  }

  lemma LimbsBound(w: Assignment, x: Wire, limbs: seq<Wire>, n: nat)
    requires |limbs| == n == 32 && Holds(BaseSum(x, limbs), w)
    ensures Writes(w, limbs, x) && w(x) < TWO32
  {
    hide Writes;
    SplitIsUnique(w, x, limbs, n);
  }

  /** Fresh limbs can be chosen for a value exactly when it has 32 bits. */
  lemma SplittableExactly(w: Assignment, x: Wire, from: Wire, n: nat)
    requires x < from && n == 32
    ensures (exists values: seq<Fp> :: |values| == n && Holds(BaseSum(x, FreshWires(from, n)), Extend(w, from, values)))
       <==> w(x) < TWO32
  {
    hide Holds, Writes;
    var limbs := FreshWires(from, n);
    if values: seq<Fp> :| |values| == n && Holds(BaseSum(x, limbs), Extend(w, from, values)) {
      LimbsBound(Extend(w, from, values), x, limbs, n);
    }
    if w(x) < TWO32 {
      DigitsHold(w, x, from, n, limbs, Digits(n, w(x)));
    }
  }

  /**
   * `split_le_base::<2>(x, 32)`: the limbs, least significant first. Every assignment that satisfies the constraint has
   * a 32-bit value on the wire; the honest one, which is to satisfy it, must have one already.
   */
  method SplitLeBase(builder: CircuitBuilder, x: Wire, n: nat) returns (limbs: seq<Wire>)
    requires builder.Valid() && x < builder.wires && n == 32 && builder.honest(x) < TWO32
    modifies builder
    ensures builder.Grown() && |limbs| == n && forall i :: 0 <= i < n ==> limbs[i] < builder.wires
    ensures forall w: Assignment :: w in builder.models ==> Writes(w, limbs, x) && w(x) < TWO32
  {
    hide Holds, Writes, Extend, Digits;
    ghost var values := Digits(n, builder.honest(x));
    limbs := FreshWires(builder.wires, n);
    DigitsHold(builder.honest, x, builder.wires, n, limbs, values);
    builder.Emit(BaseSum(x, limbs), n, values);
    forall w: Assignment | w in builder.models
      ensures Writes(w, limbs, x) && w(x) < TWO32
    {
      LimbsBound(w, x, limbs, n);
    }
  }

  // ---- Summing ----

  lemma DoublePlus(t: nat, b: Fp)
    ensures Add(Mul(2, t % P), b) == (b + 2 * t) % P
  {
    MulMod(2, t);
    ModAddSub(2 * t, b);
    BelowP(b);
    hide Mul;
  }

  lemma BelowP(b: Fp)
    ensures b % P == b
  {
  }

  lemma HornerStep(w: Assignment, limbs: seq<Wire>, i: nat, sum: Fp)
    requires i < |limbs| && sum == LittleEndian(w, limbs[i + 1..]) % P
    ensures Add(Mul(2, sum), w(limbs[i])) == LittleEndian(w, limbs[i..]) % P
  {
    assert limbs[i..][0] == limbs[i] && limbs[i..][1..] == limbs[i + 1..];
    hide Add, Mul;
    DoublePlus(LittleEndian(w, limbs[i + 1..]), w(limbs[i]));
  }

  /** The branch of `le_sum` for few bits: Horner's rule from the most significant bit down. */
  method SumByArithmetic(builder: CircuitBuilder, limbs: seq<Wire>) returns (sum: Wire)
    requires builder.Valid() && limbs != [] && forall i :: 0 <= i < |limbs| ==> limbs[i] < builder.wires
    modifies builder
    ensures builder.Grown() && sum < builder.wires
    ensures forall w: Assignment :: w in builder.models ==> w(sum) == LittleEndian(w, limbs) % P
  {
    var two := builder.NewConstant(2);
    var i: nat := |limbs| - 1;
    sum := limbs[i];
    forall w: Assignment | w in builder.models
      ensures w(sum) == LittleEndian(w, limbs[i..]) % P
    {
      assert limbs[i..] == [sum];
      assert LittleEndian(w, limbs[i..]) == w(sum) + 2 * LittleEndian(w, limbs[i..][1..]);
    }
    while i > 0
      invariant i < |limbs| && builder.Grown() && sum < builder.wires && two < builder.wires
      invariant forall w: Assignment :: w in builder.models ==> w(two) == 2 && w(sum) == LittleEndian(w, limbs[i..]) % P
    {
      i := i - 1;
      var next := builder.MultiplyPlus(two, sum, limbs[i]);
      forall w: Assignment | w in builder.models
        ensures w(next) == LittleEndian(w, limbs[i..]) % P
      {
        HornerStep(w, limbs, i, w(sum));
      }
      sum := next;
    }
    assert limbs[0..] == limbs;
  }

  /** `le_sum` of bits, least significant first; both branches give the sum of limb_i * 2^i. */
  method LeSum(builder: CircuitBuilder, limbs: seq<Wire>) returns (sum: Wire)
    requires builder.Valid() && forall i :: 0 <= i < |limbs| ==> limbs[i] < builder.wires
    requires forall w: Assignment :: w in builder.models ==> AllBits(w, limbs)
    modifies builder
    ensures builder.Grown() && sum < builder.wires
    ensures forall w: Assignment :: w in builder.models ==> w(sum) == LittleEndian(w, limbs) % P
  {
    if |limbs| == 0 {
      sum := builder.NewConstant(0);
    } else if |limbs| - 1 <= builder.opsPerGate {
      sum := SumByArithmetic(builder, limbs);
    } else {
      sum := builder.wires;
      ghost var total := LittleEndian(builder.honest, limbs) % P;
      LittleEndianLocal(builder.honest, Extend(builder.honest, builder.wires, [total]), limbs);
      builder.Emit(BaseSum(sum, limbs), 1, [total]);
    }
  }

  // ---- 32-bit additions ----

  /** A low word and a small carry below the field size determine the sum they stand for. */
  lemma SumIsUnique(s: nat, low: nat, high: nat)
    requires low < TWO32 && low + TWO32 * high < P && s < P && s % P == (low + TWO32 * high) % P
    ensures low == s % TWO32 && high == s / TWO32
  {
  }

  /** The canonical form of a 64-bit pair leaves no room for a second sum modulo the field size. */
  lemma AdditionIsUnique(x: nat, y: nat, low: nat, high: nat)
    requires x < TWO32 && y < TWO32 && low < TWO32 && high < TWO32 && (high == TWO32 - 1 ==> low == 0)
    requires (x + y) % P == (low + TWO32 * high) % P
    ensures low == (x + y) % TWO32 && high == (x + y) / TWO32
  {
    SumIsUnique(x + y, low, high);
  }

  lemma HonestAddition(s: nat)
    requires s < 2 * TWO32
    ensures s == s % TWO32 + TWO32 * (s / TWO32) && s / TWO32 < 2 && s % TWO32 < TWO32
  {
  }

  /** The generator's low word and carry meet the constraint. */
  lemma AdditionHolds(w: Assignment, x: Wire, y: Wire, from: Wire) returns (values: seq<Fp>)
    requires x < from && y < from && w(x) < TWO32 && w(y) < TWO32
    ensures |values| == 2 && Holds(U32Addition(x, y, from, from + 1), Extend(w, from, values))
  {
    var s := w(x) + w(y);
    HonestAddition(s);
    values := [s % TWO32, s / TWO32];
  }

  lemma AdditionMeans(w: Assignment, x: Wire, y: Wire, low: Wire, high: Wire)
    requires w(x) < TWO32 && w(y) < TWO32 && Holds(U32Addition(x, y, low, high), w)
    ensures w(low) == (w(x) + w(y)) % TWO32 && w(high) == (w(x) + w(y)) / TWO32
  {
    AdditionIsUnique(w(x), w(y), w(low), w(high));
  }

  /** `add_u32`: low word and carry. */
  method AddU32(builder: CircuitBuilder, x: Wire, y: Wire) returns (low: Wire, high: Wire)
    requires builder.Valid() && x < builder.wires && y < builder.wires
    requires forall w: Assignment :: w in builder.models ==> w(x) < TWO32 && w(y) < TWO32
    modifies builder
    ensures builder.Grown() && low < builder.wires && high < builder.wires
    ensures forall w: Assignment :: w in builder.models ==>
              w(low) == (w(x) + w(y)) % TWO32 && w(high) == (w(x) + w(y)) / TWO32
  {
    hide Holds, Extend;
    low, high := builder.wires, builder.wires + 1;
    ghost var values := AdditionHolds(builder.honest, x, y, builder.wires);
    builder.Emit(U32Addition(x, y, low, high), 2, values);
    forall w: Assignment | w in builder.models
      ensures w(low) == (w(x) + w(y)) % TWO32 && w(high) == (w(x) + w(y)) / TWO32
    {
      AdditionMeans(w, x, y, low, high);
    }
  }

  lemma {:induction false} SumBelow(w: Assignment, terms: seq<Wire>)
    requires forall i :: 0 <= i < |terms| ==> w(terms[i]) < TWO32
    ensures SumOf(w, terms) <= |terms| * (TWO32 - 1)
  {
    if terms != [] {
      SumBelow(w, terms[..|terms| - 1]);
    }
  }

  /** `add_many_u32`: low word and carry of up to 16 words. */
  method AddManyU32(builder: CircuitBuilder, terms: seq<Wire>) returns (low: Wire, carry: Wire)
    requires builder.Valid() && |terms| <= 16 && forall i :: 0 <= i < |terms| ==> terms[i] < builder.wires
    requires forall w: Assignment :: w in builder.models ==> forall i :: 0 <= i < |terms| ==> w(terms[i]) < TWO32
    modifies builder
    ensures builder.Grown() && low < builder.wires && carry < builder.wires
    ensures forall w: Assignment :: w in builder.models ==>
              w(low) == SumOf(w, terms) % TWO32 && w(carry) == SumOf(w, terms) / TWO32
  {
    low, carry := builder.wires, builder.wires + 1;
    ghost var s := SumOf(builder.honest, terms);
    SumBelow(builder.honest, terms);
    SumLocal(builder.honest, Extend(builder.honest, builder.wires, [s % TWO32, s / TWO32]), terms);
    builder.Emit(U32Addends(terms, low, carry), 2, [s % TWO32, s / TWO32]);
    forall w: Assignment | w in builder.models
      ensures w(low) == SumOf(w, terms) % TWO32 && w(carry) == SumOf(w, terms) / TWO32
    {
      SumBelow(w, terms);
      SumIsUnique(SumOf(w, terms), w(low), w(carry));
    }
  }
}
