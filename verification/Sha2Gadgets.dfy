// The logical functions of SHA-2 as field polynomials on bit wires.
module Sha2Gadgets {
  import opened Field
  import opened BitStrings
  import opened Circuit
  import opened CircuitBits
  import opened CircuitWords
  import opened Sha2

  // ---- Polynomials that agree with the logical functions on bits ----

  ghost predicate CarriesBit(x: Fp, b: bool)
  {
    x == if b then 1 else 0
  }

  /** 1 - 2b - 2c + 4m */
  function Xor3Factor(b: Fp, c: Fp, m: Fp): Fp
  {
    Add(Sub(Sub(1, Add(b, b)), Add(c, c)), Add(Add(m, m), Add(m, m)))
  }

  /** a * (1 - 2b - 2c + 4m) + b + c - 2m with m = bc */
  function Xor3Polynomial(a: Fp, b: Fp, c: Fp): Fp
  {
    var m := Mul(b, c);
    Sub(Add(Add(Mul(a, Xor3Factor(b, c, m)), b), c), Add(m, m))
  }

  lemma Xor3FactorOnBits(b: bool, c: bool)
    ensures Mul(Digit(b), Digit(c)) == Digit(b && c)
    ensures Xor3Factor(Digit(b), Digit(c), Digit(b && c)) == if b != c then P - 1 else 1
  {
  }

  lemma Xor3OnBits(a: bool, b: bool, c: bool)
    ensures CarriesBit(Xor3Polynomial(Digit(a), Digit(b), Digit(c)), Xor(Xor(a, b), c))
  {
    Xor3FactorOnBits(b, c);
    ZeroLaws(if b != c then P - 1 else 1);
    MulOne(if b != c then P - 1 else 1);
  }

  /** a * (b - c) + c */
  function ChPolynomial(a: Fp, b: Fp, c: Fp): Fp
  {
    Add(Mul(a, Sub(b, c)), c)
  }

  lemma ChOnBits(a: bool, b: bool, c: bool)
    ensures CarriesBit(ChPolynomial(Digit(a), Digit(b), Digit(c)), Xor(a && b, !a && c))
  {
  }

  /** a * (b + c - 2bc) + bc */
  function MajPolynomial(a: Fp, b: Fp, c: Fp): Fp
  {
    var m := Mul(b, c);
    Add(Mul(a, Sub(Add(b, c), Mul(2, m))), m)
  }

  lemma MajOnBits(a: bool, b: bool, c: bool)
    ensures CarriesBit(MajPolynomial(Digit(a), Digit(b), Digit(c)), Xor(Xor(a && b, a && c), b && c))
  {
    var m := Mul(Digit(b), Digit(c));
    MajFactorOnBits(b, c);
    hide Mul, Sub;
    ZeroLaws(if b != c then 1 else 0);
    MulOne(if b != c then 1 else 0);
  }

  /** b + c - 2bc is the exclusive or of two bits, and bc their conjunction. */
  lemma MajFactorOnBits(b: bool, c: bool)
    ensures Mul(Digit(b), Digit(c)) == Digit(b && c)
    ensures Sub(Add(Digit(b), Digit(c)), Mul(2, Mul(Digit(b), Digit(c)))) == if b != c then 1 else 0
  {
  }

  // ---- One bit of each function ----

  /** `xor3` */
  method Xor3Gate(builder: CircuitBuilder, a: Wire, b: Wire, c: Wire) returns (r: Wire)
    requires builder.Valid() && a < builder.wires && b < builder.wires && c < builder.wires
    modifies builder
    ensures builder.Grown() && r < builder.wires
    ensures forall w: Assignment :: w in builder.models ==> w(r) == Xor3Polynomial(w(a), w(b), w(c))
  {
    var m := builder.Multiply(b, c);
    var twoB := builder.Plus(b, b);
    var twoC := builder.Plus(c, c);
    var twoM := builder.Plus(m, m);
    var fourM := builder.Plus(twoM, twoM);
    var one := builder.NewConstant(1);
    var oneSubTwoB := builder.Minus(one, twoB);
    var oneSubTwoBSubTwoC := builder.Minus(oneSubTwoB, twoC);
    var factor := builder.Plus(oneSubTwoBSubTwoC, fourM);
    var res := builder.Multiply(a, factor);
    res := builder.Plus(res, b);
    res := builder.Plus(res, c);
    r := builder.Minus(res, twoM);
  }

  /** The loop body of `ch` */
  method ChGate(builder: CircuitBuilder, a: Wire, b: Wire, c: Wire) returns (r: Wire)
    requires builder.Valid() && a < builder.wires && b < builder.wires && c < builder.wires
    modifies builder
    ensures builder.Grown() && r < builder.wires
    ensures forall w: Assignment :: w in builder.models ==> w(r) == ChPolynomial(w(a), w(b), w(c))
  {
    var bSubC := builder.Minus(b, c);
    var aMulBSubC := builder.Multiply(a, bSubC);
    r := builder.Plus(aMulBSubC, c);
  }

  /** The loop body of `maj` */
  method MajGate(builder: CircuitBuilder, a: Wire, b: Wire, c: Wire) returns (r: Wire)
    requires builder.Valid() && a < builder.wires && b < builder.wires && c < builder.wires
    modifies builder
    ensures builder.Grown() && r < builder.wires
    ensures forall w: Assignment :: w in builder.models ==> w(r) == MajPolynomial(w(a), w(b), w(c))
  {
    var m := builder.Multiply(b, c);
    var two := builder.NewConstant(2);
    var twoM := builder.Multiply(two, m);
    var bAddC := builder.Plus(b, c);
    var bAddCSubTwoM := builder.Minus(bAddC, twoM);
    var aMul := builder.Multiply(a, bAddCSubTwoM);
    r := builder.Plus(aMul, m);
  }

  // ---- Index vectors ----

  /** `rotate32`, `rotate64`: position i of the rotated word is position (i - y) mod n of the word. */
  method RotateIndexes(n: nat, y: nat) returns (res: seq<nat>)
    requires y <= n
    ensures |res| == n && forall i :: 0 <= i < n ==> res[i] == if i < y then n - y + i else i - y
  {
    res := [];
    for i: nat := n - y to n
      invariant |res| == i - (n - y) && forall j :: 0 <= j < |res| ==> res[j] == n - y + j
    {
      res := res + [i];
    }
    for i: nat := 0 to n - y
      invariant |res| == y + i && forall j :: 0 <= j < |res| ==> res[j] == if j < y then n - y + j else j - y
    {
      res := res + [i];
    }
  }

  /** `shift32`, `shift64`: a zero is expected at index n. */
  method ShiftIndexes(n: nat, y: nat) returns (res: seq<nat>)
    requires y <= n
    ensures |res| == n && forall i :: 0 <= i < n ==> res[i] == if i < y then n else i - y
  {
    res := [];
    for i: nat := n - y to n
      invariant |res| == i - (n - y) && forall j :: 0 <= j < |res| ==> res[j] == n
    {
      res := res + [n];
    }
    for i: nat := 0 to n - y
      invariant |res| == y + i && forall j :: 0 <= j < |res| ==> res[j] == if j < y then n else j - y
    {
      res := res + [i];
    }
  }

  /** Reading `bits`, with a zero behind them, through the indexes gives the bits of `target`. */
  ghost predicate Selects(indexes: seq<nat>, bits: seq<bool>, target: seq<bool>)
  {
    && |indexes| == |bits| == |target|
    && forall i :: 0 <= i < |target| ==> indexes[i] <= |bits| && target[i] == (bits + [false])[indexes[i]]
  }

  lemma RotateSelects(indexes: seq<nat>, y: nat, bits: seq<bool>)
    requires y <= |bits| == |indexes|
    requires forall i :: 0 <= i < |bits| ==> indexes[i] == if i < y then |bits| - y + i else i - y
    ensures Selects(indexes, bits, Rotr(bits, y))
  {
  }

  lemma ShiftSelects(indexes: seq<nat>, y: nat, bits: seq<bool>)
    requires y <= |bits| == |indexes|
    requires forall i :: 0 <= i < |bits| ==> indexes[i] == if i < y then |bits| else i - y
    ensures Selects(indexes, bits, Shr(bits, y))
  {
  }

  // ---- Words ----

  /** The wires carry the bits `target`. */
  ghost predicate Carry(w: Assignment, wires: seq<Wire>, target: seq<bool>)
  {
    AllBits(w, wires) && BitValues(w, wires) == target
  }

  lemma CarryOneMore(w: Assignment, wires: seq<Wire>, target: seq<bool>, i: nat, r: Wire)
    requires i < |target| && Carry(w, wires, target[..i]) && CarriesBit(w(r), target[i])
    ensures Carry(w, wires + [r], target[..i + 1])
  {
    BitValuesConcat(w, wires, [r]);
  }

  lemma CarryAt(w: Assignment, wires: seq<Wire>, target: seq<bool>, i: nat)
    requires Carry(w, wires, target) && i < |wires|
    ensures CarriesBit(w(wires[i]), target[i])
  {
    assert BitValues(w, wires)[i] == (w(wires[i]) == 1);
  }

  /** The bits of a word, with a zero behind them where the shift needs it. */
  method PaddedBits(builder: CircuitBuilder, x: Word, limbs: nat, zero: bool) returns (bits: seq<Wire>)
    requires builder.Valid() && IsWord(builder, x, limbs)
    modifies builder
    ensures builder.Grown() && AreBits(builder, bits, 32 * limbs + if zero then 1 else 0)
    ensures forall w: Assignment :: w in builder.models ==>
              Carry(w, bits, ToBits(32 * limbs, WordValue(w, x)) + if zero then [false] else [])
  {
    bits := WordToBits(builder, x, 32);
    if zero {
      var constant := builder.NewConstant(0);
      forall w: Assignment | w in builder.models
        ensures Carry(w, bits + [constant], ToBits(32 * limbs, WordValue(w, x)) + [false])
      {
        BitValuesConcat(w, bits, [constant]);
      }
      bits := bits + [constant];
    }
  }

  lemma SelectedBit(w: Assignment, wires: seq<Wire>, bits: seq<bool>, zero: bool, indexes: seq<nat>, target: seq<bool>,
                    i: nat)
    requires Carry(w, wires, bits + if zero then [false] else []) && Selects(indexes, bits, target) && i < |target|
    requires indexes[i] < |wires|
    ensures CarriesBit(w(wires[indexes[i]]), target[i])
  {
    CarryAt(w, wires, bits + if zero then [false] else [], indexes[i]);
  }

  lemma Xor3Bit(w: Assignment, a: Wire, b: Wire, c: Wire, r: Wire, x: seq<bool>, y: seq<bool>, z: seq<bool>, i: nat)
    requires |x| == |y| == |z| && i < |x|
    requires CarriesBit(w(a), x[i]) && CarriesBit(w(b), y[i]) && CarriesBit(w(c), z[i])
    requires w(r) == Xor3Polynomial(w(a), w(b), w(c))
    ensures CarriesBit(w(r), Xor3(x, y, z)[i])
  {
    Xor3OnBits(x[i], y[i], z[i]);
  }

  /** The index vectors of a sigma function. */
  ghost predicate SigmaIndexes(s: Sigma, n: nat, first: seq<nat>, second: seq<nat>, third: seq<nat>)
  {
    && s.first <= n && s.second <= n && s.third <= n && |first| == |second| == |third| == n
    && (forall i :: 0 <= i < n ==> first[i] == if i < s.first then n - s.first + i else i - s.first)
    && (forall i :: 0 <= i < n ==> second[i] == if i < s.second then n - s.second + i else i - s.second)
    && (forall i :: 0 <= i < n ==>
        third[i] == if i < s.third then (if s.shift then n else n - s.third + i) else i - s.third)
  }

  lemma SigmaSelected(w: Assignment, wires: seq<Wire>, bits: seq<bool>, s: Sigma, first: seq<nat>, second: seq<nat>,
                      third: seq<nat>, r: Wire, i: nat)
    requires SigmaIndexes(s, |bits|, first, second, third) && i < |bits| && |wires| == |bits| + if s.shift then 1 else 0
    requires Carry(w, wires, bits + if s.shift then [false] else [])
    requires w(r) == Xor3Polynomial(w(wires[first[i]]), w(wires[second[i]]), w(wires[third[i]]))
    ensures CarriesBit(w(r), SigmaBits(s, bits)[i])
  {
    RotateSelects(first, s.first, bits);
    RotateSelects(second, s.second, bits);
    var last := if s.shift then Shr(bits, s.third) else Rotr(bits, s.third);
    if s.shift {
      ShiftSelects(third, s.third, bits);
    } else {
      RotateSelects(third, s.third, bits);
    }
    SelectedBit(w, wires, bits, s.shift, first, Rotr(bits, s.first), i);
    SelectedBit(w, wires, bits, s.shift, second, Rotr(bits, s.second), i);
    SelectedBit(w, wires, bits, s.shift, third, last, i);
    Xor3Bit(w, wires[first[i]], wires[second[i]], wires[third[i]], r, Rotr(bits, s.first), Rotr(bits, s.second), last,
            i);
  }

  /** In every model the wires carry the first bits of what `target` makes of the model. */
  ghost predicate CarryUpTo(models: iset<Assignment>, wires: seq<Wire>, target: Assignment -> seq<bool>, n: nat)
  {
    |wires| <= n && forall w: Assignment :: w in models ==> |target(w)| == n && Carry(w, wires, target(w)[..|wires|])
  }

  lemma CarryNext(before: iset<Assignment>, models: iset<Assignment>, wires: seq<Wire>, target: Assignment -> seq<bool>,
                  n: nat, r: Wire)
    requires models <= before && CarryUpTo(before, wires, target, n) && |wires| < n
    requires forall w: Assignment :: w in models ==> |target(w)| == n && CarriesBit(w(r), target(w)[|wires|])
    ensures CarryUpTo(models, wires + [r], target, n)
  {
    forall w: Assignment | w in models
      ensures |target(w)| == n && Carry(w, wires + [r], target(w)[..|wires + [r]|])
    {
      assert w in before;
      CarryOneMore(w, wires, target(w), |wires|, r);
    }
  }

  lemma CarryWhole(models: iset<Assignment>, wires: seq<Wire>, target: Assignment -> seq<bool>, n: nat, w: Assignment)
    requires CarryUpTo(models, wires, target, n) && |wires| == n && w in models
    ensures Carry(w, wires, target(w))
  {
    assert target(w)[..n] == target(w);
  }

  /** The wires from which a sigma function selects. */
  ghost predicate Selectable(models: iset<Assignment>, s: Sigma, wires: seq<Wire>, bits: Assignment -> seq<bool>,
                             n: nat)
  {
    && s.first <= n && s.second <= n && s.third <= n && |wires| == n + (if s.shift then 1 else 0)
    && forall w: Assignment :: w in models ==>
      |bits(w)| == n && Carry(w, wires, bits(w) + if s.shift then [false] else [])
  }

  function SigmaOf(s: Sigma, n: nat, bits: Assignment -> seq<bool>): Assignment -> seq<bool>
  {
    (w: Assignment) =>
      if |bits(w)| == n && s.first <= n && s.second <= n && s.third <= n then SigmaBits(s, bits(w)) else []
  }

  lemma SigmaBegins(models: iset<Assignment>, s: Sigma, wires: seq<Wire>, bits: Assignment -> seq<bool>, n: nat)
    requires Selectable(models, s, wires, bits, n)
    ensures CarryUpTo(models, [], SigmaOf(s, n, bits), n)
  {
  }

  /** One bit of a sigma function. */
  method SigmaBit(builder: CircuitBuilder, s: Sigma, wires: seq<Wire>, n: nat, first: seq<nat>, second: seq<nat>,
                  third: seq<nat>, i: nat, ghost bits: Assignment -> seq<bool>) returns (r: Wire)
    requires builder.Valid() && InUse(builder.wires, wires) && Selectable(builder.models, s, wires, bits, n)
    requires SigmaIndexes(s, n, first, second, third) && i < n
    modifies builder
    ensures builder.Grown() && r < builder.wires
    ensures forall w: Assignment :: w in builder.models ==>
              |SigmaOf(s, n, bits)(w)| == n && CarriesBit(w(r), SigmaOf(s, n, bits)(w)[i])
  {
    r := Xor3Gate(builder, wires[first[i]], wires[second[i]], wires[third[i]]);
    forall w: Assignment | w in builder.models
      ensures |SigmaOf(s, n, bits)(w)| == n && CarriesBit(w(r), SigmaOf(s, n, bits)(w)[i])
    {
      SigmaSelected(w, wires, bits(w), s, first, second, third, r, i);
    }
  }

  /** The bit loop of the sigma functions. */
  method SigmaLoop(builder: CircuitBuilder, s: Sigma, wires: seq<Wire>, n: nat, first: seq<nat>, second: seq<nat>,
                   third: seq<nat>, ghost bits: Assignment -> seq<bool>) returns (res: seq<Wire>)
    requires builder.Valid() && InUse(builder.wires, wires) && Selectable(builder.models, s, wires, bits, n)
    requires SigmaIndexes(s, n, first, second, third)
    modifies builder
    ensures builder.Grown() && |res| == n && InUse(builder.wires, res)
    ensures CarryUpTo(builder.models, res, SigmaOf(s, n, bits), n)
  {
    hide SigmaOf, Carry;
    res := [];
    SigmaBegins(builder.models, s, wires, bits, n);
    for i: nat := 0 to n
      invariant builder.Grown() && |res| == i && InUse(builder.wires, res)
      invariant CarryUpTo(builder.models, res, SigmaOf(s, n, bits), n)
    {
      ghost var before := builder.models;
      var r := SigmaBit(builder, s, wires, n, first, second, third, i, bits);
      CarryNext(before, builder.models, res, SigmaOf(s, n, bits), n, r);
      res := res + [r];
    }
  }

  /** Back from bits to a word. */
  method WordOfBits(builder: CircuitBuilder, v: Variant, res: seq<Wire>, ghost target: Assignment -> seq<bool>)
    returns (r: Word)
    requires builder.Valid() && |res| == v.W() && InUse(builder.wires, res) &&
             CarryUpTo(builder.models, res, target, v.W())
    modifies builder
    ensures builder.Grown() && IsWord(builder, r, v.limbs)
    ensures forall w: Assignment :: w in builder.models ==> WordValue(w, r) == Nat(target(w))
  {
    forall w: Assignment | w in builder.models
      ensures Carry(w, res, target(w))
    {
      CarryWhole(builder.models, res, target, v.W(), w);
    }
    r := BitsToWord(builder, res, v.limbs, 32);
  }

  /** `big_sigma0`, `big_sigma1`, `sigma0`, `sigma1` */
  method SigmaGadget(builder: CircuitBuilder, v: Variant, s: Sigma, x: Word) returns (r: Word)
    requires builder.Valid() && IsWord(builder, x, v.limbs) && v.Fits(s)
    modifies builder
    ensures builder.Grown() && IsWord(builder, r, v.limbs)
    ensures forall w: Assignment :: w in builder.models ==> WordValue(w, r) == SigmaWord(v, s, WordValue(w, x))
  {
    var n := v.W();
    var wires := PaddedBits(builder, x, v.limbs, s.shift);
    var first := RotateIndexes(n, s.first);
    var second := RotateIndexes(n, s.second);
    var third: seq<nat>;
    if s.shift {
      third := ShiftIndexes(n, s.third);
    } else {
      third := RotateIndexes(n, s.third);
    }
    ghost var bits := BitsOf(n, x);
    var res := SigmaLoop(builder, s, wires, n, first, second, third, bits);
    r := WordOfBits(builder, v, res, SigmaOf(s, n, bits));
  }

  function BitsOf(n: nat, x: Word): Assignment -> seq<bool>
  {
    (w: Assignment) => ToBits(n, WordValue(w, x))
  }

  // ---- ch and maj ----

  datatype Choice = ChooseCh | ChooseMaj

  function ChoiceBits(f: Choice, a: seq<bool>, b: seq<bool>, c: seq<bool>): (r: seq<bool>)
    requires |a| == |b| == |c|
    ensures |r| == |a|
  {
    match f
    case ChooseCh => ChBits(a, b, c)
    case ChooseMaj => MajBits(a, b, c)
  }

  function ChoiceOf(f: Choice, n: nat, a: Word, b: Word, c: Word): Assignment -> seq<bool>
  {
    (w: Assignment) => ChoiceBits(f, ToBits(n, WordValue(w, a)), ToBits(n, WordValue(w, b)), ToBits(n, WordValue(w, c)))
  }

  lemma ChoiceBegins(models: iset<Assignment>, f: Choice, n: nat, a: Word, b: Word, c: Word)
    ensures CarryUpTo(models, [], ChoiceOf(f, n, a, b, c), n)
  {
  }

  function ChoicePolynomial(f: Choice, a: Fp, b: Fp, c: Fp): Fp
  {
    match f
    case ChooseCh => ChPolynomial(a, b, c)
    case ChooseMaj => MajPolynomial(a, b, c)
  }

  lemma ChoiceOnBits(f: Choice, a: Fp, b: Fp, c: Fp, x: seq<bool>, y: seq<bool>, z: seq<bool>, i: nat)
    requires |x| == |y| == |z| && i < |x| && CarriesBit(a, x[i]) && CarriesBit(b, y[i]) && CarriesBit(c, z[i])
    ensures CarriesBit(ChoicePolynomial(f, a, b, c), ChoiceBits(f, x, y, z)[i])
  {
    ChOnBits(x[i], y[i], z[i]);
    MajOnBits(x[i], y[i], z[i]);
  }

  ghost predicate CarryWord(models: iset<Assignment>, wires: seq<Wire>, n: nat, x: Word)
  {
    |wires| == n && forall w: Assignment :: w in models ==> Carry(w, wires, ToBits(n, WordValue(w, x)))
  }

  lemma ChoiceCarried(f: Choice, w: Assignment, n: nat, aBits: seq<Wire>, bBits: seq<Wire>, cBits: seq<Wire>, i: nat,
                      r: Wire, a: Word, b: Word, c: Word)
    requires i < n == |aBits| == |bBits| == |cBits|
    requires Carry(w, aBits, ToBits(n, WordValue(w, a))) && Carry(w, bBits, ToBits(n, WordValue(w, b)))
    requires Carry(w, cBits, ToBits(n, WordValue(w, c)))
    requires w(r) == ChoicePolynomial(f, w(aBits[i]), w(bBits[i]), w(cBits[i]))
    ensures |ChoiceOf(f, n, a, b, c)(w)| == n && CarriesBit(w(r), ChoiceOf(f, n, a, b, c)(w)[i])
  {
    var x, y, z := ToBits(n, WordValue(w, a)), ToBits(n, WordValue(w, b)), ToBits(n, WordValue(w, c));
    CarryAt(w, aBits, x, i);
    CarryAt(w, bBits, y, i);
    CarryAt(w, cBits, z, i);
    ChoiceOnBits(f, w(aBits[i]), w(bBits[i]), w(cBits[i]), x, y, z, i);
  }

  method ChoiceEmit(builder: CircuitBuilder, f: Choice, a: Wire, b: Wire, c: Wire) returns (r: Wire)
    requires builder.Valid() && a < builder.wires && b < builder.wires && c < builder.wires
    modifies builder
    ensures builder.Grown() && r < builder.wires
    ensures forall w: Assignment :: w in builder.models ==> w(r) == ChoicePolynomial(f, w(a), w(b), w(c))
  {
    match f
    case ChooseCh => r := ChGate(builder, a, b, c);
    case ChooseMaj => r := MajGate(builder, a, b, c);
  }

  /** One bit of `ch` or `maj`. */
  method ChoiceGate(builder: CircuitBuilder, f: Choice, n: nat, aBits: seq<Wire>, bBits: seq<Wire>, cBits: seq<Wire>,
                    i: nat, ghost a: Word, ghost b: Word, ghost c: Word) returns (r: Wire)
    requires builder.Valid() && i < n
    requires InUse(builder.wires, aBits) && InUse(builder.wires, bBits) && InUse(builder.wires, cBits)
    requires CarryWord(builder.models, aBits, n, a) && CarryWord(builder.models, bBits, n, b) &&
             CarryWord(builder.models, cBits, n, c)
    modifies builder
    ensures builder.Grown() && r < builder.wires
    ensures forall w: Assignment :: w in builder.models ==>
              |ChoiceOf(f, n, a, b, c)(w)| == n && CarriesBit(w(r), ChoiceOf(f, n, a, b, c)(w)[i])
  {
    r := ChoiceEmit(builder, f, aBits[i], bBits[i], cBits[i]);
    forall w: Assignment | w in builder.models
      ensures |ChoiceOf(f, n, a, b, c)(w)| == n && CarriesBit(w(r), ChoiceOf(f, n, a, b, c)(w)[i])
    {
      ChoiceCarried(f, w, n, aBits, bBits, cBits, i, r, a, b, c);
    }
  }

  /** The bit loop of `ch` and `maj`. */
  method ChoiceLoop(builder: CircuitBuilder, f: Choice, n: nat, aBits: seq<Wire>, bBits: seq<Wire>, cBits: seq<Wire>,
                    ghost a: Word, ghost b: Word, ghost c: Word) returns (res: seq<Wire>)
    requires builder.Valid()
    requires InUse(builder.wires, aBits) && InUse(builder.wires, bBits) && InUse(builder.wires, cBits)
    requires CarryWord(builder.models, aBits, n, a) && CarryWord(builder.models, bBits, n, b) &&
             CarryWord(builder.models, cBits, n, c)
    modifies builder
    ensures builder.Grown() && |res| == n && InUse(builder.wires, res)
    ensures CarryUpTo(builder.models, res, ChoiceOf(f, n, a, b, c), n)
  {
    hide ChoiceOf, Carry, WordValue;
    res := [];
    ChoiceBegins(builder.models, f, n, a, b, c);
    for i: nat := 0 to n
      invariant builder.Grown() && |res| == i && InUse(builder.wires, res)
      invariant CarryUpTo(builder.models, res, ChoiceOf(f, n, a, b, c), n)
    {
      ghost var before := builder.models;
      var r := ChoiceGate(builder, f, n, aBits, bBits, cBits, i, a, b, c);
      CarryNext(before, builder.models, res, ChoiceOf(f, n, a, b, c), n, r);
      res := res + [r];
    }
  }

  /** `ch`, `maj` */
  method ChoiceGadget(builder: CircuitBuilder, v: Variant, f: Choice, a: Word, b: Word, c: Word) returns (r: Word)
    requires builder.Valid() && IsWord(builder, a, v.limbs) && IsWord(builder, b, v.limbs) &&
             IsWord(builder, c, v.limbs)
    modifies builder
    ensures builder.Grown() && IsWord(builder, r, v.limbs)
    ensures forall w: Assignment :: w in builder.models ==>
              WordValue(w, r) == if f.ChooseCh? then Ch(v, WordValue(w, a), WordValue(w, b), WordValue(w, c))
                                 else Maj(v, WordValue(w, a), WordValue(w, b), WordValue(w, c))
  {
    var aBits := PaddedBits(builder, a, v.limbs, false);
    var bBits := PaddedBits(builder, b, v.limbs, false);
    var cBits := PaddedBits(builder, c, v.limbs, false);
    var res := ChoiceLoop(builder, f, v.W(), aBits, bBits, cBits, a, b, c);
    r := WordOfBits(builder, v, res, ChoiceOf(f, v.W(), a, b, c));
  }
}
