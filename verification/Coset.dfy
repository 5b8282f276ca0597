// Rescaling coefficients onto a coset, and the bit-reversed low-degree extension it leads to.
module Coset {
  import opened Field
  import opened Bits
  import opened Roots
  import opened Ntt

  /** Coefficient j multiplied by m^j: the polynomial p(mX). */
  function CosetScale(c: Poly, m: Fp): (r: Poly)
    ensures |r| == |c|
  {
    seq(|c|, j requires 0 <= j < |c| => Mul(c[j], Pow(m, j)))
  }

  lemma CosetScaleTwice(c: Poly, a: Fp, b: Fp)
    ensures CosetScale(CosetScale(c, a), b) == CosetScale(c, Mul(a, b))
  {
    forall j | 0 <= j < |c|
      ensures CosetScale(CosetScale(c, a), b)[j] == CosetScale(c, Mul(a, b))[j]
    {
      MulAssoc(c[j], Pow(a, j), Pow(b, j));
      PowProduct(a, b, j);
    }
  }

  lemma CosetScaleByOne(c: Poly)
    ensures CosetScale(c, 1) == c
  {
    forall j | 0 <= j < |c|
      ensures CosetScale(c, 1)[j] == c[j]
    {
      PowOne(j);
      MulOne(c[j]);
    }
  }

  /** Evaluating the rescaled polynomial at x is evaluating the original one at mx. */
  lemma EvalCosetScale(c: Poly, m: Fp, x: Fp)
    ensures Eval(CosetScale(c, m), x) == Eval(c, Mul(m, x))
  {
    forall j | 0 <= j < |c|
      ensures CosetScale(c, m)[j] == Mul(c[j], Mul(1, Pow(m, j)))
    {
      MulOne(Pow(m, j));
    }
    EvalGeometric(c, CosetScale(c, m), 1, m, x);
    MulOne(Eval(c, Mul(m, x)));
  }

  lemma {:induction false} EvalGeometric(c: Poly, s: Poly, q: Fp, m: Fp, x: Fp)
    requires |s| == |c|
    requires forall j :: 0 <= j < |c| ==> s[j] == Mul(c[j], Mul(q, Pow(m, j)))
    ensures Eval(s, x) == Mul(q, Eval(c, Mul(m, x)))
  {
    if c == [] {
      ZeroLaws(q);
    } else {
      forall j | 0 <= j < |c| - 1
        ensures s[1..][j] == Mul(c[1..][j], Mul(Mul(q, m), Pow(m, j)))
      {
        assert s[1..][j] == s[j + 1] && c[1..][j] == c[j + 1];
        MulAssoc(q, m, Pow(m, j));
      }
      EvalGeometric(c[1..], s[1..], Mul(q, m), m, x);
      MulOne(q);
      assert Pow(m, 0) == 1;
      GeometricStep(c[0], q, m, x, Eval(c[1..], Mul(m, x)));
    }
  }

  lemma GeometricStep(a: Fp, q: Fp, m: Fp, x: Fp, e: Fp)
    ensures Add(Mul(a, q), Mul(x, Mul(Mul(q, m), e))) == Mul(q, Add(a, Mul(Mul(m, x), e)))
  {
    MulAdd(q, a, Mul(Mul(m, x), e));
    MulComm(a, q);
    MulAssoc(q, m, e);
    MulSwap(x, q, Mul(m, e));
    MulSwap(x, m, e);
    MulAssoc(m, x, e);
  }

  /** Appending zero coefficients does not change the polynomial. */
  lemma EvalPadded(c: Poly, zeros: Poly, x: Fp)
    requires forall j :: 0 <= j < |zeros| ==> zeros[j] == 0
    ensures Eval(c + zeros, x) == Eval(c, x)
  {
    EvalConcat(c, zeros, x);
    EvalZeros(zeros, x);
    ZeroLaws(Pow(x, |c|));
    ZeroLaws(Eval(c, x));
  }

  lemma {:induction false} EvalZeros(zeros: Poly, x: Fp)
    requires forall j :: 0 <= j < |zeros| ==> zeros[j] == 0
    ensures Eval(zeros, x) == 0
  {
    if zeros != [] {
      EvalZeros(zeros[1..], x);
    }
  }

  // ---- The extension domain ----

  /**
   * The p-th point of the extension domain in bit-reversed order: the coset of the subgroup of order 2^(k+rateBits).
   */
  function ExtensionPoint(k: nat, rateBits: nat, p: nat): Fp
    requires k + rateBits <= 32
  {
    Mul(GENERATOR, Pow(Root(k + rateBits), Rev(k + rateBits, p)))
  }

  /** The first point is the shift itself, and each step in bit-reversed order multiplies by the root of unity. */
  lemma ExtensionPoints(k: nat, rateBits: nat, p: nat, q: nat)
    requires k + rateBits <= 32 && Rev(k + rateBits, q) == Rev(k + rateBits, p) + 1
    ensures ExtensionPoint(k, rateBits, 0) == 7
    ensures ExtensionPoint(k, rateBits, q) == Root(k + rateBits) * ExtensionPoint(k, rateBits, p) % P
  {
    var root := Root(k + rateBits);
    RevOfZero(k + rateBits);
    MulSwap(root, GENERATOR, Pow(root, Rev(k + rateBits, p)));
  }

  lemma {:induction false} RevOfZero(bits: nat)
    ensures Rev(bits, 0) == 0
  {
    if bits > 0 {
      RevOfZero(bits - 1);
    }
  }

  /** The shift under which the i-th pass of the in-place loop evaluates. */
  function PassShift(k: nat, rateBits: nat, i: nat): Fp
    requires k + rateBits <= 32
  {
    Mul(GENERATOR, Pow(Root(k + rateBits), i))
  }

  lemma BlockIndex(k: nat, rateBits: nat, i: nat, q: nat, p: nat)
    requires i < Pow2(rateBits) && q < Pow2(k) && p == Rev(rateBits, i) * Pow2(k) + q
    ensures Rev(k + rateBits, p) == Rev(k, q) * Pow2(rateBits) + i
  {
    RevConcat(k, rateBits, q, Rev(rateBits, i));
    RevInvolution(rateBits, i);
  }

  /** Point q of pass i is point p = Rev(i) * 2^k + q of the extension domain. */
  lemma PassCoversBlock(k: nat, rateBits: nat, i: nat, q: nat, p: nat)
    requires k + rateBits <= 32 && i < Pow2(rateBits) && q < Pow2(k) && p == Rev(rateBits, i) * Pow2(k) + q
    ensures Mul(PassShift(k, rateBits, i), Pow(Root(k), Rev(k, q))) == ExtensionPoint(k, rateBits, p)
  {
    BlockIndex(k, rateBits, i, q, p);
    PointOfPass(k, rateBits, i, Rev(k, q), p);
  }

  lemma PointOfPass(k: nat, rateBits: nat, i: nat, e: nat, p: nat)
    requires k + rateBits <= 32 && Rev(k + rateBits, p) == e * Pow2(rateBits) + i
    ensures Mul(PassShift(k, rateBits, i), Pow(Root(k), e)) == ExtensionPoint(k, rateBits, p)
  {
    RootPow(k + rateBits, rateBits);
    SplitPower(Root(k + rateBits), Root(k), i, e, Pow2(rateBits));
  }

  lemma SplitPower(r: Fp, root: Fp, i: nat, e: nat, rate: nat)
    requires Pow(r, rate) == root
    ensures Mul(Mul(GENERATOR, Pow(r, i)), Pow(root, e)) == Mul(GENERATOR, Pow(r, e * rate + i))
  {
    PowMul(r, rate, e);
    assert rate * e == e * rate;
    PowAdd(r, i, e * rate);
    MulAssoc(GENERATOR, Pow(r, i), Pow(r, e * rate));
  }

  /** `pad_coset` followed by the transform of size 2^(k+rateBits): one column of the stored extension. */
  function Extension(order: nat, c: Poly, k: nat, rateBits: nat): (r: Poly)
    requires 1 <= order <= 32
  {
    var zeros := seq(if |c| <= Pow2(k + rateBits) then Pow2(k + rateBits) - |c| else 0, _ => 0);
    Forward(order, CosetScale(c, GENERATOR) + zeros, k + rateBits)
  }

  lemma ExtensionIsEvaluation(order: nat, c: Poly, k: nat, rateBits: nat, p: nat)
    requires k + rateBits <= order <= 32 && 1 <= order && |c| == Pow2(k) && p < Pow2(k + rateBits)
    ensures |Extension(order, c, k, rateBits)| == Pow2(k + rateBits)
    ensures Extension(order, c, k, rateBits)[p] == Eval(c, ExtensionPoint(k, rateBits, p))
  {
    Pow2Monotone(k, k + rateBits);
    var zeros: Poly := seq(Pow2(k + rateBits) - |c|, _ => 0);
    var padded, x := CosetScale(c, GENERATOR) + zeros, Pow(Root(k + rateBits), Rev(k + rateBits, p));
    NttIsEvaluation(order, padded, k + rateBits, p);
    EvalPadded(CosetScale(c, GENERATOR), zeros, x);
    EvalCosetScale(c, GENERATOR, x);
  }
}
