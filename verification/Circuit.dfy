// A builder that appends wires and constraints, and what its constraints mean for every assignment of the wires.
module Circuit {
  import opened Field

  type Wire = nat
  type Assignment = Wire -> Fp

  /** The constraints, with the meaning that the proof system's gates give them. */
  datatype Gate =
    | Constant(out: Wire, value: Fp)
    | Product(x: Wire, y: Wire, out: Wire)
    | Total(x: Wire, y: Wire, out: Wire)
    | Difference(x: Wire, y: Wire, out: Wire)
    | ProductPlus(x: Wire, y: Wire, z: Wire, out: Wire)
    | ScaledPlus(c: Fp, x: Wire, y: Wire, out: Wire)
    | BaseSum(out: Wire, limbs: seq<Wire>)
    | U32Addition(x: Wire, y: Wire, low: Wire, high: Wire)
    | U32Addends(terms: seq<Wire>, low: Wire, carry: Wire)

  const TWO32: nat := 0x1_0000_0000

  predicate IsBit(x: Fp)
  {
    x == 0 || x == 1
  }

  /** Sum of limb_i * 2^i. */
  function LittleEndian(w: Assignment, limbs: seq<Wire>): nat
  {
    if limbs == [] then 0 else w(limbs[0]) + 2 * LittleEndian(w, limbs[1..])
  }

  function SumOf(w: Assignment, terms: seq<Wire>): nat
  {
    if terms == [] then 0 else SumOf(w, terms[..|terms| - 1]) + w(terms[|terms| - 1])
  }

  ghost predicate Holds(g: Gate, w: Assignment)
  {
    match g
    case Constant(out, value) => w(out) == value
    case Product(x, y, out) => w(out) == Mul(w(x), w(y))
    case Total(x, y, out) => w(out) == Add(w(x), w(y))
    case Difference(x, y, out) => w(out) == Sub(w(x), w(y))
    case ProductPlus(x, y, z, out) => w(out) == Add(Mul(w(x), w(y)), w(z))
    case ScaledPlus(c, x, y, out) => w(out) == Add(Mul(c, w(x)), w(y))
    case BaseSum(out, limbs) =>
      (forall i :: 0 <= i < |limbs| ==> IsBit(w(limbs[i]))) && w(out) == LittleEndian(w, limbs) % P
    case U32Addition(x, y, low, high) =>
      && w(low) < TWO32 && w(high) < TWO32 && (w(high) == TWO32 - 1 ==> w(low) == 0)
      && (w(x) + w(y)) % P == (w(low) + TWO32 * w(high)) % P
    case U32Addends(terms, low, carry) =>
      w(low) < TWO32 && w(carry) < 16 && SumOf(w, terms) % P == (w(low) + TWO32 * w(carry)) % P
  }

  predicate InScope(g: Gate, n: nat)
  {
    match g
    case Constant(out, value) => out < n
    case Product(x, y, out) => x < n && y < n && out < n
    case Total(x, y, out) => x < n && y < n && out < n
    case Difference(x, y, out) => x < n && y < n && out < n
    case ProductPlus(x, y, z, out) => x < n && y < n && z < n && out < n
    case ScaledPlus(c, x, y, out) => x < n && y < n && out < n
    case BaseSum(out, limbs) => out < n && forall i :: 0 <= i < |limbs| ==> limbs[i] < n
    case U32Addition(x, y, low, high) => x < n && y < n && low < n && high < n
    case U32Addends(terms, low, carry) => low < n && carry < n && forall i :: 0 <= i < |terms| ==> terms[i] < n
  }

  /** All constraints hold and the message wires carry bits. */
  ghost predicate Satisfies(w: Assignment, gates: seq<Gate>, inputs: seq<Wire>)
  {
    && (forall i :: 0 <= i < |gates| ==> Holds(gates[i], w))
    && (forall i :: 0 <= i < |inputs| ==> IsBit(w(inputs[i])))
  }

  // ---- Constraints look at the wires in their scope only ----

  lemma {:induction false} LittleEndianLocal(w: Assignment, w': Assignment, limbs: seq<Wire>)
    requires forall i :: 0 <= i < |limbs| ==> w(limbs[i]) == w'(limbs[i])
    ensures LittleEndian(w, limbs) == LittleEndian(w', limbs)
  {
    if limbs != [] {
      assert w(limbs[0]) == w'(limbs[0]);
      forall i | 0 <= i < |limbs| - 1
        ensures w(limbs[1..][i]) == w'(limbs[1..][i])
      {
        assert limbs[1..][i] == limbs[i + 1];
      }
      LittleEndianLocal(w, w', limbs[1..]);
    }
  }

  lemma {:induction false} SumLocal(w: Assignment, w': Assignment, terms: seq<Wire>)
    requires forall i :: 0 <= i < |terms| ==> w(terms[i]) == w'(terms[i])
    ensures SumOf(w, terms) == SumOf(w', terms)
  {
    if terms != [] {
      SumLocal(w, w', terms[..|terms| - 1]);
    }
  }

  lemma HoldsLocal(g: Gate, n: nat, w: Assignment, w': Assignment)
    requires InScope(g, n) && forall t: Wire :: t < n ==> w(t) == w'(t)
    ensures Holds(g, w) ==> Holds(g, w')
  {
    match g
    case BaseSum(out, limbs) => LittleEndianLocal(w, w', limbs);
    case U32Addends(terms, low, carry) => SumLocal(w, w', terms);
    case _ =>
  }

  // ---- The builder ----

  /** `w` with the wires from `from` on set to `values`. */
  function Extend(w: Assignment, from: Wire, values: seq<Fp>): Assignment
  {
    (t: Wire) => if from <= t < from + |values| then values[t - from] else w(t)
  }

  lemma ExtendKeeps(w: Assignment, from: Wire, values: seq<Fp>)
    ensures forall t: Wire :: t < from ==> Extend(w, from, values)(t) == w(t)
  {
  }

  lemma WiderScope(gates: seq<Gate>, n: nat, m: nat)
    requires n <= m && forall i :: 0 <= i < |gates| ==> InScope(gates[i], n)
    ensures forall i :: 0 <= i < |gates| ==> InScope(gates[i], m)
  {
  }

  class CircuitBuilder {
    var gates: seq<Gate>
    var inputs: seq<Wire>
    var wires: nat
    /** Number of base arithmetic operations per gate, which decides how sums of bits are built. */
    const opsPerGate: nat
    /** The message that the honest assignment carries on the message wires. */
    ghost const message: nat -> bool
    /** The assignments that satisfy all constraints, and one of them. */
    ghost var models: iset<Assignment>
    ghost var honest: Assignment

    ghost predicate Valid()
      reads this
    {
      && (forall w: Assignment :: w in models <==> Satisfies(w, gates, inputs))
      && honest in models
      && (forall i :: 0 <= i < |gates| ==> InScope(gates[i], wires))
      && (forall i :: 0 <= i < |inputs| ==> inputs[i] < wires)
      && (forall i :: 0 <= i < |inputs| ==> honest(inputs[i]) == if message(i) then 1 else 0)
    }

    constructor (opsPerGate: nat, ghost message: nat -> bool)
      ensures Valid() && gates == [] && inputs == [] && wires == 0
      ensures this.opsPerGate == opsPerGate && this.message == message
    {
      this.opsPerGate := opsPerGate;
      this.message := message;
      gates, inputs, wires := [], [], 0;
      models := iset w: Assignment | Satisfies(w, [], []);
      honest := (t: Wire) => 0;
    }

    /** A constraint on fresh wires; `values` is what the honest assignment puts on them. */
    method Emit(g: Gate, count: nat, ghost values: seq<Fp>)
      requires Valid() && |values| == count && InScope(g, wires + count)
      requires Holds(g, Extend(honest, wires, values))
      modifies this
      ensures Valid() && wires == old(wires) + count && inputs == old(inputs) && gates == old(gates) + [g]
      ensures models <= old(models) && forall w: Assignment :: w in models ==> Holds(g, w)
    {
      hide Holds, InScope, Extend;
      ghost var next := Extend(honest, wires, values);
      ghost var before := gates;
      ExtendKeeps(honest, wires, values);
      WiderScope(gates, wires, wires + count);
      forall i | 0 <= i < |gates|
        ensures Holds(gates[i], next)
      {
        HoldsLocal(gates[i], wires, honest, next);
      }
      gates := gates + [g];
      wires := wires + count;
      honest := next;
      models := iset w: Assignment | w in models && Holds(g, w);
      forall w: Assignment
        ensures w in models <==> Satisfies(w, gates, inputs)
      {
        if Satisfies(w, gates, inputs) {
          forall i | 0 <= i < |before|
            ensures Holds(before[i], w)
          {
            assert before[i] == gates[i];
          }
          assert gates[|before|] == g;
        }
      }
    }

    /** `add_virtual_bool_target_unsafe`, for a message bit: no constraint at all. */
    method AddInput() returns (t: Wire)
      requires Valid()
      modifies this
      ensures Valid() && t == old(wires) && wires == old(wires) + 1 && inputs == old(inputs) + [t] &&
              gates == old(gates)
      ensures models <= old(models) && forall w: Assignment :: w in models ==> IsBit(w(t))
    {
      hide Holds, InScope;
      t := wires;
      ghost var next := Extend(honest, wires, [if message(|inputs|) then 1 else 0]);
      WiderScope(gates, wires, wires + 1);
      forall i | 0 <= i < |gates|
        ensures Holds(gates[i], next)
      {
        HoldsLocal(gates[i], wires, honest, next);
      }
      ghost var before := inputs;
      inputs := inputs + [t];
      wires := wires + 1;
      honest := next;
      models := iset w: Assignment | w in models && IsBit(w(t));
      forall w: Assignment
        ensures w in models <==> Satisfies(w, gates, inputs)
      {
        if Satisfies(w, gates, inputs) {
          forall i | 0 <= i < |before|
            ensures IsBit(w(before[i]))
          {
            assert before[i] == inputs[i];
          }
          assert inputs[|before|] == t;
        }
      }
    }

    /** What every gadget keeps: only constraints and wires are added, so that what held of all models still holds. */
    twostate predicate Grown()
      reads this
    {
      Valid() && models <= old(models) && old(wires) <= wires && inputs == old(inputs)
    }

    method NewConstant(x: Fp) returns (t: Wire)
      requires Valid()
      modifies this
      ensures Grown() && t < wires && forall w: Assignment :: w in models ==> w(t) == x
    {
      t := wires;
      Emit(Constant(t, x), 1, [x]);
    }

    method Multiply(x: Wire, y: Wire) returns (t: Wire)
      requires Valid() && x < wires && y < wires
      modifies this
      ensures Grown() && t < wires && forall w: Assignment :: w in models ==> w(t) == Mul(w(x), w(y))
    {
      t := wires;
      Emit(Product(x, y, t), 1, [Mul(honest(x), honest(y))]);
    }

    method Plus(x: Wire, y: Wire) returns (t: Wire)
      requires Valid() && x < wires && y < wires
      modifies this
      ensures Grown() && t < wires && forall w: Assignment :: w in models ==> w(t) == Add(w(x), w(y))
    {
      t := wires;
      Emit(Total(x, y, t), 1, [Add(honest(x), honest(y))]);
    }

    method Minus(x: Wire, y: Wire) returns (t: Wire)
      requires Valid() && x < wires && y < wires
      modifies this
      ensures Grown() && t < wires && forall w: Assignment :: w in models ==> w(t) == Sub(w(x), w(y))
    {
      t := wires;
      Emit(Difference(x, y, t), 1, [Sub(honest(x), honest(y))]);
    }

    method MultiplyPlus(x: Wire, y: Wire, z: Wire) returns (t: Wire)
      requires Valid() && x < wires && y < wires && z < wires
      modifies this
      ensures Grown() && t < wires && forall w: Assignment :: w in models ==> w(t) == Add(Mul(w(x), w(y)), w(z))
    {
      t := wires;
      Emit(ProductPlus(x, y, z, t), 1, [Add(Mul(honest(x), honest(y)), honest(z))]);
    }

    /** `mul_const_add` */
    method ScalePlus(c: Fp, x: Wire, y: Wire) returns (t: Wire)
      requires Valid() && x < wires && y < wires
      modifies this
      ensures Grown() && t < wires && forall w: Assignment :: w in models ==> w(t) == Add(Mul(c, w(x)), w(y))
    {
      t := wires;
      Emit(ScaledPlus(c, x, y, t), 1, [Add(Mul(c, honest(x)), honest(y))]);
    }
  }
}
