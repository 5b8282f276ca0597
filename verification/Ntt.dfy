// The number-theoretic transform, as the butterfly network of the single-stage kernels,
// and its meaning: evaluation at the powers of a root of unity in bit-reversed order.
module Ntt {
  import opened Field
  import opened Bits
  import opened Roots

  type Poly = seq<Fp>

  /** Value at `x` of the polynomial whose coefficients are listed from the constant upwards. */
  function Eval(c: Poly, x: Fp): Fp
  {
    if c == [] then 0 else Add(c[0], Mul(x, Eval(c[1..], x)))
  }

  // ---- The network as a function on coefficient lists ----

  /** The forward butterfly on the two halves of a region. */
  function Butterfly(lo: Poly, hi: Poly, t: Fp): (r: Poly)
    requires |lo| == |hi|
    ensures |r| == 2 * |lo|
  {
    seq(|lo|, j requires 0 <= j < |lo| => Add(lo[j], Mul(hi[j], t))) +
    seq(|lo|, j requires 0 <= j < |lo| => Sub(lo[j], Mul(hi[j], t)))
  }

  /** The inverse butterfly on the two halves of a region. */
  function InverseButterfly(lo: Poly, hi: Poly, t: Fp): (r: Poly)
    requires |lo| == |hi|
    ensures |r| == 2 * |lo|
  {
    seq(|lo|, j requires 0 <= j < |lo| => Add(lo[j], hi[j])) +
    seq(|lo|, j requires 0 <= j < |lo| => Mul(Sub(lo[j], hi[j]), t))
  }

  function Scale(v: Poly, m: Fp): (r: Poly)
    ensures |r| == |v|
  {
    seq(|v|, j requires 0 <= j < |v| => Mul(v[j], m))
  }

  /** The two kernels; the backward one also multiplies by `factor` (one, except in its last launch). */
  datatype Kernel = N2B | B2N(factor: Fp)

  function Exchange(kernel: Kernel, lo: Poly, hi: Poly, t: Fp): (r: Poly)
    requires |lo| == |hi|
    ensures |r| == 2 * |lo|
  {
    match kernel
    case N2B => Butterfly(lo, hi, t)
    case B2N(factor) => Scale(InverseButterfly(lo, hi, t), factor)
  }

  function TableEntry(kernel: Kernel, order: nat, e: nat): Fp
    requires 1 <= order <= 32
  {
    match kernel
    case N2B => Twiddle(order, e)
    case B2N(_) => InverseTwiddle(order, e)
  }

  /** One launch of `n2b_1_stage` or `b2n_1_stage` over regions of size 2h, the first of which has number `e`. */
  function Stage(kernel: Kernel, order: nat, v: Poly, h: nat, e: nat): (r: Poly)
    requires 1 <= order <= 32 && h > 0
    ensures |r| == |v|
  {
    if |v| < 2 * h then v
    else
      Exchange(kernel, v[..h], v[h..2 * h], TableEntry(kernel, order, e)) + Stage(kernel, order, v[2 * h..], h, e + 1)
  }

  /** The first `s` launches of the forward transform of size 2^k. */
  function ForwardStages(order: nat, c: Poly, k: nat, s: nat): (r: Poly)
    requires 1 <= order <= 32 && s <= k
    ensures |r| == |c|
  {
    if s == 0 then c else Stage(N2B, order, ForwardStages(order, c, k, s - 1), Pow2(k - s), 0)
  }

  /** The `inv_sizes` table: 2^-k. */
  function InverseSize(k: nat): Fp
  {
    Pow(TWO_INV, k)
  }

  function LaunchFactor(k: nat, s: nat): Fp
  {
    if s == k then InverseSize(k) else 1
  }

  /** The first `s` launches of the inverse transform of size 2^k, from bit-reversed order. */
  function InverseStages(order: nat, v: Poly, k: nat, s: nat): (r: Poly)
    requires 1 <= order <= 32
    ensures |r| == |v|
  {
    if s == 0 then v
    else Stage(B2N(LaunchFactor(k, s)), order, InverseStages(order, v, k, s - 1), Pow2(s - 1), 0)
  }

  function Forward(order: nat, c: Poly, k: nat): (r: Poly)
    requires 1 <= order <= 32
    ensures |r| == |c|
  {
    ForwardStages(order, c, k, k)
  }

  function Inverse(order: nat, v: Poly, k: nat): (r: Poly)
    requires 1 <= order <= 32
    ensures |r| == |v|
  {
    InverseStages(order, v, k, k)
  }

  // ---- Meaning of the forward network ----

  lemma LinearCombination(l: Fp, h: Fp, t: Fp, x: Fp, el: Fp, eh: Fp)
    ensures Add(Add(l, Mul(h, t)), Mul(x, Add(el, Mul(t, eh)))) == Add(Add(l, Mul(x, el)), Mul(t, Add(h, Mul(x, eh))))
  {
    MulAdd(x, el, Mul(t, eh));
    MulAdd(t, h, Mul(x, eh));
    MulSwap(x, t, eh);
    MulComm(h, t);
    AddShuffle(l, Mul(t, h), Mul(x, el), Mul(t, Mul(x, eh)));
  }

  lemma AddShuffle(a: Fp, b: Fp, c: Fp, d: Fp)
    ensures Add(Add(a, b), Add(c, d)) == Add(Add(a, c), Add(b, d))
  {
    ModAddSub(a + b, c + d);
    ModAddSub(a + c, b + d);
  }

  lemma {:induction false} EvalCombination(lo: Poly, hi: Poly, t: Fp, r: Poly, x: Fp)
    requires |lo| == |hi| == |r|
    requires forall j :: 0 <= j < |lo| ==> r[j] == Add(lo[j], Mul(hi[j], t))
    ensures Eval(r, x) == Add(Eval(lo, x), Mul(t, Eval(hi, x)))
  {
    if lo != [] {
      EvalCombination(lo[1..], hi[1..], t, r[1..], x);
      LinearCombination(lo[0], hi[0], t, x, Eval(lo[1..], x), Eval(hi[1..], x));
    }
  }

  lemma {:induction false} EvalConcat(a: Poly, b: Poly, x: Fp)
    ensures Eval(a + b, x) == Add(Eval(a, x), Mul(Pow(x, |a|), Eval(b, x)))
  {
    if a == [] {
      assert a + b == b;
      MulOne(Eval(b, x));
    } else {
      assert (a + b)[1..] == a[1..] + b;
      EvalConcat(a[1..], b, x);
      var p, e := Pow(x, |a| - 1), Eval(b, x);
      MulAdd(x, Eval(a[1..], x), Mul(p, e));
      MulAssoc(x, p, e);
      AddAssoc(a[0], Mul(x, Eval(a[1..], x)), Mul(Mul(x, p), e));
    }
  }

  lemma AddAssoc(a: Fp, b: Fp, c: Fp)
    ensures Add(Add(a, b), c) == Add(a, Add(b, c))
  {
  }

  /** Region `e` of stage `s` agrees with `c` at every point that the region represents. */
  ghost predicate Agrees(block: Poly, s: nat, e: nat, c: Poly)
    requires s <= 32
  {
    forall x: Fp :: Pow(x, |block|) == Zeta(s, e) ==> Eval(block, x) == Eval(c, x)
  }

  /** All regions of size `m` in `v`, numbered from `e`, agree with `c`. */
  ghost predicate AllAgree(v: Poly, m: nat, s: nat, e: nat, c: Poly)
    requires s <= 32 && m > 0
  {
    |v| < m || (Agrees(v[..m], s, e, c) && AllAgree(v[m..], m, s, e + 1, c))
  }

  lemma SubIsAddMinus(l: Fp, h: Fp, t: Fp)
    ensures Sub(l, Mul(h, t)) == Add(l, Mul(h, Mul(t, MINUS_ONE)))
  {
    MulAssoc(h, t, MINUS_ONE);
    MulMinusOne(Mul(h, t));
    SubByNegation(l, Mul(h, t));
  }

  lemma MulMinusOne(p: Fp)
    ensures Mul(p, MINUS_ONE) == if p == 0 then 0 else P - p
  {
    if p > 0 {
      ModUnique(p * (P - 1), p - 1, P - p);
    }
  }

  lemma SubByNegation(l: Fp, p: Fp)
    ensures Sub(l, p) == Add(l, if p == 0 then 0 else P - p)
  {
  }

  /** Halving a region: X^2h - z splits into X^h - t and X^h + t when z = t^2. */
  lemma HalfAgrees(lo: Poly, hi: Poly, half: Poly, s: nat, e: nat, e': nat, t: Fp, c: Poly)
    requires s < 32 && |lo| == |hi| == |half|
    requires Agrees(lo + hi, s, e, c)
    requires t == Zeta(s + 1, e') && Mul(t, t) == Zeta(s, e)
    requires forall j :: 0 <= j < |lo| ==> half[j] == Add(lo[j], Mul(hi[j], t))
    ensures Agrees(half, s + 1, e', c)
  {
    forall x: Fp | Pow(x, |half|) == Zeta(s + 1, e')
      ensures Eval(half, x) == Eval(c, x)
    {
      PowAdd(x, |lo|, |lo|);
      assert Pow(x, |lo + hi|) == Zeta(s, e);
      EvalConcat(lo, hi, x);
      EvalCombination(lo, hi, t, half, x);
    }
  }

  lemma SquareOfMinus(t: Fp)
    ensures Mul(Mul(t, MINUS_ONE), Mul(t, MINUS_ONE)) == Mul(t, t)
  {
    MulAssoc(t, MINUS_ONE, Mul(t, MINUS_ONE));
    MulSwap(MINUS_ONE, t, MINUS_ONE);
    MulOne(t);
    assert Mul(MINUS_ONE, MINUS_ONE) == 1;
  }

  lemma ButterflyAgrees(lo: Poly, hi: Poly, s: nat, e: nat, t: Fp, c: Poly)
    requires s < 32 && |lo| == |hi| > 0 && t == Zeta(s + 1, 2 * e)
    requires Agrees(lo + hi, s, e, c)
    ensures Agrees(Butterfly(lo, hi, t)[..|lo|], s + 1, 2 * e, c)
    ensures Agrees(Butterfly(lo, hi, t)[|lo|..], s + 1, 2 * e + 1, c)
  {
    var r := Butterfly(lo, hi, t);
    ZetaEven(s, e);
    HalfAgrees(lo, hi, r[..|lo|], s, e, 2 * e, t, c);
    ZetaOdd(s, e);
    SquareOfMinus(t);
    var right := r[|lo|..];
    forall j | 0 <= j < |lo|
      ensures right[j] == Add(lo[j], Mul(hi[j], Mul(t, MINUS_ONE)))
    {
      SubIsAddMinus(lo[j], hi[j], t);
    }
    HalfAgrees(lo, hi, right, s, e, 2 * e + 1, Mul(t, MINUS_ONE), c);
  }

  lemma ConsTwoRegions(a: Poly, b: Poly, rest: Poly, h: nat, s: nat, e: nat, c: Poly)
    requires s <= 32 && h == |a| == |b| > 0
    requires Agrees(a, s, e, c) && Agrees(b, s, e + 1, c) && AllAgree(rest, h, s, e + 2, c)
    ensures AllAgree(a + b + rest, h, s, e, c)
  {
    var v := a + b + rest;
    assert v[..h] == a;
    assert v[h..][..h] == b;
    assert v[h..][h..] == rest;
  }

  lemma FirstRegion(v: Poly, m: nat, s: nat, e: nat, c: Poly)
    requires s <= 32 && 0 < m <= |v|
    ensures AllAgree(v, m, s, e, c) <==> Agrees(v[..m], s, e, c) && AllAgree(v[m..], m, s, e + 1, c)
  {
    hide Agrees;
  }

  lemma NoRegion(v: Poly, m: nat, s: nat, e: nat, c: Poly)
    requires s <= 32 && |v| < m
    ensures AllAgree(v, m, s, e, c)
  {
  }

  lemma StageOfRegion(order: nat, v: Poly, h: nat, e: nat)
    requires 1 <= order <= 32 && h > 0 && 2 * h <= |v|
    ensures Stage(N2B, order, v, h, e)
         == Butterfly(v[..h], v[h..2 * h], Twiddle(order, e)) + Stage(N2B, order, v[2 * h..], h, e + 1)
  {
    hide Butterfly, Twiddle;
  }

  /** The stage on the first region, when it agrees on the others. */
  lemma RegionAgrees(order: nat, v: Poly, h: nat, s: nat, e: nat, c: Poly)
    requires s < order <= 32 && h > 0 && 2 * h <= |v| && e < Pow2(s) && Agrees(v[..2 * h], s, e, c)
    requires AllAgree(Stage(N2B, order, v[2 * h..], h, e + 1), h, s + 1, 2 * (e + 1), c)
    ensures AllAgree(Stage(N2B, order, v, h, e), h, s + 1, 2 * e, c)
  {
    hide Agrees, AllAgree, Butterfly, Twiddle, Zeta, Stage, Pow2;
    var lo, hi, t := v[..h], v[h..2 * h], Twiddle(order, e);
    assert lo + hi == v[..2 * h];
    TwiddleIsZeta(order, s, e);
    ButterflyAgrees(lo, hi, s, e, t, c);
    var r := Butterfly(lo, hi, t);
    assert r[..h] + r[h..] == r;
    StageOfRegion(order, v, h, e);
    ConsTwoRegions(r[..h], r[h..], Stage(N2B, order, v[2 * h..], h, e + 1), h, s + 1, 2 * e, c);
  }

  /** There are `n` coefficients in `regions` regions of `m`. */
  ghost predicate InRegions(n: nat, regions: nat, m: nat)
  {
    n == regions * m
  }

  lemma RegionsLeft(n: nat, regions: nat, m: nat)
    requires InRegions(n, regions, m)
    ensures regions > 0 ==> n >= m && InRegions(n - m, regions - 1, m)
    ensures regions == 0 ==> n == 0
  {
    if regions > 0 {
      assert regions * m == (regions - 1) * m + m;
    }
  }

  lemma {:induction false} StageAgrees(order: nat, v: Poly, h: nat, s: nat, e: nat, regions: nat, c: Poly)
    requires s < order <= 32 && h > 0
    requires e + regions == Pow2(s) && InRegions(|v|, regions, 2 * h)
    requires AllAgree(v, 2 * h, s, e, c)
    ensures AllAgree(Stage(N2B, order, v, h, e), h, s + 1, 2 * e, c)
    decreases regions
  {
    hide Agrees, AllAgree, Stage, Pow2, InRegions;
    RegionsLeft(|v|, regions, 2 * h);
    if regions > 0 {
      FirstRegion(v, 2 * h, s, e, c);
      StageAgrees(order, v[2 * h..], h, s, e + 1, regions - 1, c);
      RegionAgrees(order, v, h, s, e, c);
    } else {
      NoRegion(Stage(N2B, order, v, h, e), h, s + 1, 2 * e, c);
    }
  }

  lemma {:induction false} StagesAgree(order: nat, c: Poly, k: nat, s: nat)
    requires s <= k <= order <= 32 && 1 <= order && |c| == Pow2(k)
    ensures AllAgree(ForwardStages(order, c, k, s), Pow2(k - s), s, 0, c)
  {
    if s == 0 {
      assert c[..|c|] == c;
    } else {
      StagesAgree(order, c, k, s - 1);
      var h := Pow2(k - s);
      Pow2Add(s - 1, k - s + 1);
      StageAgrees(order, ForwardStages(order, c, k, s - 1), h, s - 1, 0, Pow2(s - 1), c);
    }
  }

  lemma EvalSingleton(v: Poly, x: Fp)
    requires |v| == 1
    ensures Eval(v, x) == v[0]
  {
    assert Eval(v[1..], x) == 0;
  }

  lemma {:induction false} SingletonRegions(v: Poly, s: nat, e: nat, c: Poly, i: nat)
    requires s <= 32 && AllAgree(v, 1, s, e, c) && i < |v|
    ensures v[i] == Eval(c, Zeta(s, e + i))
  {
    if i == 0 {
      SquareOf(Zeta(s, e));
      EvalSingleton(v[..1], Zeta(s, e));
    } else {
      SingletonRegions(v[1..], s, e + 1, c, i - 1);
    }
  }

  /**
   * The forward network evaluates the polynomial at all powers of the root of order 2^k,
   * and leaves the values in bit-reversed order.
   */
  lemma NttIsEvaluation(order: nat, c: Poly, k: nat, i: nat)
    requires k <= order <= 32 && 1 <= order && |c| == Pow2(k) && i < |c|
    ensures ForwardStages(order, c, k, k)[i] == Eval(c, Pow(Root(k), Rev(k, i)))
  {
    StagesAgree(order, c, k, k);
    SingletonRegions(ForwardStages(order, c, k, k), k, 0, c, i);
  }

  // ---- The inverse network undoes the forward one ----

  lemma SumAndDifference(l: Fp, p: Fp)
    ensures Add(Add(l, p), Sub(l, p)) == Mul(l, 2) && Sub(Add(l, p), Sub(l, p)) == Mul(p, 2)
  {
    ModAddSub(l + p, l - p);
  }

  lemma ButterflyUndone(l: Fp, h: Fp, t: Fp, ti: Fp)
    requires Mul(t, ti) == 1
    ensures Add(Add(l, Mul(h, t)), Sub(l, Mul(h, t))) == Mul(l, 2)
    ensures Mul(Sub(Add(l, Mul(h, t)), Sub(l, Mul(h, t))), ti) == Mul(h, 2)
  {
    var p := Mul(h, t);
    SumAndDifference(l, p);
    hide Mul, Add, Sub;
    MulComm(p, 2);
    MulAssoc(2, p, ti);
    MulAssoc(h, t, ti);
    MulOne(h);
    MulComm(h, 2);
  }

  lemma ButterflyInverse(lo: Poly, hi: Poly, t: Fp, ti: Fp)
    requires |lo| == |hi| && Mul(t, ti) == 1
    ensures InverseButterfly(Butterfly(lo, hi, t)[..|lo|], Butterfly(lo, hi, t)[|lo|..], ti) == Scale(lo + hi, 2)
  {
    var r := Butterfly(lo, hi, t);
    var u, s := InverseButterfly(r[..|lo|], r[|lo|..], ti), Scale(lo + hi, 2);
    forall j | 0 <= j < |u|
      ensures u[j] == s[j]
    {
      var i := if j < |lo| then j else j - |lo|;
      ButterflyUndone(lo[i], hi[i], t, ti);
    }
  }

  lemma StageCons(kernel: Kernel, order: nat, block: Poly, rest: Poly, h: nat, e: nat)
    requires 1 <= order <= 32 && h > 0 && |block| == 2 * h
    ensures Stage(kernel, order, block + rest, h, e)
         == Exchange(kernel, block[..h], block[h..], TableEntry(kernel, order, e)) +
           Stage(kernel, order, rest, h, e + 1)
  {
    var v := block + rest;
    assert v[..h] == block[..h] && v[h..2 * h] == block[h..] && v[2 * h..] == rest;
  }

  lemma {:induction false} StageInverse(order: nat, v: Poly, h: nat, e: nat, f: Fp)
    requires 1 <= order <= 32 && h > 0 && Multiple(|v|, 2 * h)
    ensures Stage(B2N(f), order, Stage(N2B, order, v, h, e), h, e) == Scale(v, Mul(2, f))
    decreases |v|
  {
    if v == [] {
      assert v == Scale(v, Mul(2, f));
    } else {
      StageInverse(order, v[2 * h..], h, e + 1, f);
      RegionInverse(order, v[..h], v[h..2 * h], v[2 * h..], h, e, f);
      assert v[..h] + v[h..2 * h] + v[2 * h..] == v;
    }
  }

  lemma RegionInverse(order: nat, lo: Poly, hi: Poly, rest: Poly, h: nat, e: nat, f: Fp)
    requires 1 <= order <= 32 && h == |lo| == |hi| > 0
    requires Stage(B2N(f), order, Stage(N2B, order, rest, h, e + 1), h, e + 1) == Scale(rest, Mul(2, f))
    ensures Stage(B2N(f), order, Stage(N2B, order, lo + hi + rest, h, e), h, e) == Scale(lo + hi + rest, Mul(2, f))
  {
    var r := Butterfly(lo, hi, Twiddle(order, e));
    StageCons(N2B, order, lo + hi, rest, h, e);
    assert (lo + hi)[..h] == lo && (lo + hi)[h..] == hi;
    StageCons(B2N(f), order, r, Stage(N2B, order, rest, h, e + 1), h, e);
    ExchangeUndone(order, lo, hi, r, e, f);
    ScaleSplit(lo + hi + rest, lo + hi, rest, Mul(2, f));
  }

  lemma ScaleSplit(v: Poly, a: Poly, b: Poly, m: Fp)
    requires v == a + b
    ensures Scale(v, m) == Scale(a, m) + Scale(b, m)
  {
  }

  lemma ExchangeUndone(order: nat, lo: Poly, hi: Poly, r: Poly, e: nat, f: Fp)
    requires 1 <= order <= 32 && |lo| == |hi| && r == Butterfly(lo, hi, Twiddle(order, e))
    ensures Exchange(B2N(f), r[..|lo|], r[|lo|..], InverseTwiddle(order, e)) == Scale(lo + hi, Mul(2, f))
  {
    TwiddleInverse(order, e);
    ButterflyInverse(lo, hi, Twiddle(order, e), InverseTwiddle(order, e));
    ScaleTwice(lo + hi, 2, f);
  }

  lemma ScaleTwice(v: Poly, a: Fp, b: Fp)
    ensures Scale(Scale(v, a), b) == Scale(v, Mul(a, b))
  {
    forall j | 0 <= j < |v|
      ensures Scale(Scale(v, a), b)[j] == Scale(v, Mul(a, b))[j]
    {
      MulAssoc(v[j], a, b);
    }
  }

  lemma ScaleByOne(v: Poly)
    ensures Scale(v, 1) == v
  {
    forall j | 0 <= j < |v|
      ensures Scale(v, 1)[j] == v[j]
    {
      MulOne(v[j]);
    }
  }

  lemma MulAddRight(a: Fp, b: Fp, m: Fp)
    ensures Add(Mul(a, m), Mul(b, m)) == Mul(Add(a, b), m)
    ensures Sub(Mul(a, m), Mul(b, m)) == Mul(Sub(a, b), m)
  {
    MulAdd(m, a, b);
    MulSub(m, a, b);
    MulComm(m, a);
    MulComm(m, b);
    MulComm(m, Add(a, b));
    MulComm(m, Sub(a, b));
  }

  lemma InverseButterflyScale(lo: Poly, hi: Poly, t: Fp, m: Fp)
    requires |lo| == |hi|
    ensures InverseButterfly(Scale(lo, m), Scale(hi, m), t) == Scale(InverseButterfly(lo, hi, t), m)
  {
    var u, r := InverseButterfly(Scale(lo, m), Scale(hi, m), t), InverseButterfly(lo, hi, t);
    var s := Scale(r, m);
    forall j | 0 <= j < |u|
      ensures u[j] == s[j]
    {
      var i := if j < |lo| then j else j - |lo|;
      MulAddRight(lo[i], hi[i], m);
      var d := Sub(lo[i], hi[i]);
      MulAssoc(d, m, t);
      MulComm(m, t);
      MulAssoc(d, t, m);
    }
  }

  lemma ExchangeScale(lo: Poly, hi: Poly, t: Fp, f: Fp, m: Fp)
    requires |lo| == |hi|
    ensures Exchange(B2N(f), Scale(lo, m), Scale(hi, m), t) == Scale(Exchange(B2N(f), lo, hi, t), m)
  {
    var r := InverseButterfly(lo, hi, t);
    InverseButterflyScale(lo, hi, t, m);
    ScaleTwice(r, m, f);
    ScaleTwice(r, f, m);
    MulComm(m, f);
  }

  lemma {:induction false} InverseStageScale(order: nat, v: Poly, h: nat, e: nat, f: Fp, m: Fp)
    requires 1 <= order <= 32 && h > 0
    ensures Stage(B2N(f), order, Scale(v, m), h, e) == Scale(Stage(B2N(f), order, v, h, e), m)
    decreases |v|
  {
    if |v| >= 2 * h {
      var lo, hi, rest := v[..h], v[h..2 * h], v[2 * h..];
      InverseStageScale(order, rest, h, e + 1, f, m);
      ExchangeScale(lo, hi, InverseTwiddle(order, e), f, m);
      var s := Scale(v, m);
      assert s[..h] == Scale(lo, m) && s[h..2 * h] == Scale(hi, m) && s[2 * h..] == Scale(rest, m);
    }
  }

  lemma UndoOneStage(order: nat, before: Poly, after: Poly, h: nat, m: Fp, f: Fp)
    requires 1 <= order <= 32 && h > 0 && Multiple(|before|, 2 * h)
    requires after == Stage(N2B, order, before, h, 0)
    ensures Stage(B2N(f), order, Scale(after, m), h, 0) == Scale(before, Mul(Mul(2, m), f))
  {
    InverseStageScale(order, after, h, 0, f, m);
    StageInverse(order, before, h, 0, f);
    ScaleTwice(before, Mul(2, f), m);
    MulAssoc(2, f, m);
    MulComm(f, m);
    MulAssoc(2, m, f);
  }

  /** After `j` backward launches the last `j` forward ones are undone, up to the factor 2^j and the launch's own. */
  lemma {:induction false} StagesInverse(order: nat, c: Poly, k: nat, j: nat)
    requires 0 < j <= k && 1 <= order <= 32 && |c| == Pow2(k)
    ensures InverseStages(order, Forward(order, c, k), k, j)
         == Scale(ForwardStages(order, c, k, k - j), Mul(Pow(2, j), LaunchFactor(k, j)))
  {
    hide Stage, Scale, Add, Mul;
    var full, h, m, f := Forward(order, c, k), Pow2(j - 1), Pow(2, j - 1), LaunchFactor(k, j);
    var before, after := ForwardStages(order, c, k, k - j), ForwardStages(order, c, k, k - j + 1);
    if j == 1 {
      ScaleByOne(after);
      assert InverseStages(order, full, k, 0) == full;
    } else {
      StagesInverse(order, c, k, j - 1);
      MulOne(m);
    }
    assert InverseStages(order, full, k, j - 1) == Scale(after, m);
    Pow2Multiple(k, j);
    UndoOneStage(order, before, after, h, m, f);
    assert InverseStages(order, full, k, j) == Scale(before, Mul(Mul(2, m), f));
    assert Pow(2, j) == Mul(2, m);
  }

  /** The transform back from bit-reversed order restores the coefficients exactly. */
  lemma InverseUndoesForward(order: nat, c: Poly, k: nat)
    requires 1 <= order <= 32 && |c| == Pow2(k)
    ensures Inverse(order, Forward(order, c, k), k) == c
  {
    if k > 0 {
      StagesInverse(order, c, k, k);
      PowProduct(2, TWO_INV, k);
      Inverses();
      PowOne(k);
      ScaleByOne(c);
    }
  }
}
