// One pass of the in-place loop over the cosets of the extension domain.
module CosetPasses {
  import opened Field
  import opened Bits
  import opened Roots
  import opened Ntt
  import opened Coset
  import opened Device
  import opened Columns
  import opened Leaves

  // ---- Specification: leaves of the low-degree extension ----

  /** All polynomials of a region, given by columns of n coefficients, evaluated at x. */
  function EvalRow(v: seq<Fp>, n: nat, x: Fp): seq<Fp>
    requires n > 0
  {
    if |v| < n then [] else [Eval(v[..n], x)] + EvalRow(v[n..], n, x)
  }

  /** Hash of a row of values: rows of at most CAPACITY values are their own digest. */
  function RowDigest(perm: Permutation, row: seq<Fp>): Digest
  {
    LeafDigest(AbsorbRow(perm, |row| > CAPACITY, ZERO_STATE, row))
  }

  /** Up to four values are stored as they are, before zeros. */
  lemma ShortRowDigest(perm: Permutation, row: seq<Fp>)
    requires |row| <= 4
    ensures RowDigest(perm, row) == row + seq<Fp>(4 - |row|, _ => 0)
  {
  }

  /** Five to eight values are permuted once, before zeros. */
  lemma OneRoundDigest(perm: Permutation, row: seq<Fp>)
    requires 5 <= |row| <= 8
    ensures RowDigest(perm, row) == perm(row + seq<Fp>(12 - |row|, _ => 0))[..4]
  {
    assert row + ZERO_STATE[|row|..] == row + seq<Fp>(12 - |row|, _ => 0);
  }

  // ---- Column algebra ----

  lemma MulExpTwice(c: Poly, k: nat, a: Fp, b: Fp)
    ensures MulExp(MulExp(c, k, a), k, b) == MulExp(c, k, Mul(a, b))
  {
    CosetScaleTwice(c, a, b);
  }

  lemma MulExpByOne(c: Poly, k: nat)
    ensures MulExp(c, k, 1) == c
  {
    CosetScaleByOne(c);
  }

  lemma RescaleEach(v: seq<Fp>, k: nat, a: Fp, b: Fp)
    ensures EachColumn(Rescaling(k, b), Pow2(k), EachColumn(Rescaling(k, a), Pow2(k), v))
         == EachColumn(Rescaling(k, Mul(a, b)), Pow2(k), v)
  {
    forall c: Poly | |c| == Pow2(k)
      ensures Rescaling(k, b)(Rescaling(k, a)(c)) == Rescaling(k, Mul(a, b))(c)
    {
      MulExpTwice(c, k, a, b);
    }
    EachCompose(Rescaling(k, a), Rescaling(k, b), Rescaling(k, Mul(a, b)), Pow2(k), v);
  }

  lemma RescaleByOne(v: seq<Fp>, k: nat)
    ensures EachColumn(Rescaling(k, 1), Pow2(k), v) == v
  {
    forall c: Poly | |c| == Pow2(k)
      ensures Rescaling(k, 1)(c) == c
    {
      MulExpByOne(c, k);
    }
    EachIdentity(Rescaling(k, 1), Pow2(k), v);
  }

  /** After the rescaling by s and the forward transform. */
  function Transformed(order: nat, k: nat, s: Fp): Poly -> Poly
    requires 1 <= order <= 32
  {
    (c: Poly) => Forward(order, MulExp(c, k, s), k)
  }

  lemma TransformEach(order: nat, v: seq<Fp>, k: nat, s: Fp)
    requires 1 <= order <= 32
    ensures EachColumn(ForwardUpTo(order, k, k), Pow2(k), EachColumn(Rescaling(k, s), Pow2(k), v))
         == EachColumn(Transformed(order, k, s), Pow2(k), v)
  {
    EachCompose(Rescaling(k, s), ForwardUpTo(order, k, k), Transformed(order, k, s), Pow2(k), v);
  }

  lemma TransformBackEach(order: nat, v: seq<Fp>, k: nat, s: Fp)
    requires 1 <= order <= 32
    ensures EachColumn(BackwardUpTo(order, k, k), Pow2(k), EachColumn(Transformed(order, k, s), Pow2(k), v))
         == EachColumn(Rescaling(k, s), Pow2(k), v)
  {
    forall c: Poly | |c| == Pow2(k)
      ensures BackwardUpTo(order, k, k)(Transformed(order, k, s)(c)) == Rescaling(k, s)(c)
    {
      InverseUndoesForward(order, MulExp(c, k, s), k);
    }
    EachCompose(Transformed(order, k, s), BackwardUpTo(order, k, k), Rescaling(k, s), Pow2(k), v);
  }

  lemma {:induction false} LeafOfEach(f: Poly -> Poly, v: seq<Fp>, n: nat, q: nat, x: Fp)
    requires q < n && LengthPreserving(f)
    requires forall c: Poly :: |c| == n ==> f(c)[q] == Eval(c, x)
    ensures LeafValues(EachColumn(f, n, v), n, q, 1) == EvalRow(v, n, x)
    decreases |v|
  {
    if |v| >= n {
      LeafOfEach(f, v[n..], n, q, x);
      LeafCons(f(v[..n]), EachColumn(f, n, v[n..]), n, q);
    }
  }

  lemma LeafCons(column: Poly, rest: seq<Fp>, n: nat, q: nat)
    requires q < n == |column|
    ensures LeafValues(column + rest, n, q, 1) == [column[q]] + LeafValues(rest, n, q, 1)
  {
    var v := column + rest;
    assert v[q..q + 1] == [column[q]] && v[n..] == rest;
  }

  /** Reading leaf q after the transform is evaluating every column at the point of the pass. */
  lemma LeafIsEvaluation(order: nat, v: seq<Fp>, k: nat, s: Fp, q: nat, x: Fp)
    requires k <= order <= 32 && 1 <= order && q < Pow2(k)
    requires x == Mul(if k < 5 then 1 else s, Pow(Root(k), Rev(k, q)))
    ensures LeafValues(EachColumn(Transformed(order, k, s), Pow2(k), v), Pow2(k), q, 1) == EvalRow(v, Pow2(k), x)
  {
    var w := Pow(Root(k), Rev(k, q));
    forall c: Poly | |c| == Pow2(k)
      ensures Transformed(order, k, s)(c)[q] == Eval(c, x)
    {
      NttIsEvaluation(order, MulExp(c, k, s), k, q);
      EvalCosetScale(c, s, w);
      MulOne(w);
    }
    LeafOfEach(Transformed(order, k, s), v, Pow2(k), q, x);
  }

  // ---- The kernels of one pass ----

  /** One digest per row. */
  function RowDigests(perm: Permutation, row: nat -> seq<Fp>, count: nat): (r: seq<Digest>)
    ensures |r| == count
  {
    seq<Digest>(count, p requires 0 <= p < count => RowDigest(perm, row(p)))
  }

  /** The rows of a region of columns of length n. */
  function RegionRow(v: seq<Fp>, n: nat): nat -> seq<Fp>
  {
    (q: nat) => if q < n then LeafValues(v, n, q, 1) else []
  }

  /** The thread for leaf q of a block: one row per hash. */
  method BlockLeaf(perm: Permutation, values: array<Fp>, base: nat, num: nat, n: nat, q: nat, ghost v: seq<Fp>)
    returns (d: Digest)
    requires q < n && HasColumns(v, n, num) && base + |v| <= values.Length && v == values[base..base + |v|]
    ensures d == RowDigest(perm, RegionRow(v, n)(q))
  {
    ghost var row := LeafValues(v, n, q, 1);
    ColumnsLength(v, n, num);
    LeafValuesLength(v, n, q, 1, num);
    var state := LeafThread(perm, num > CAPACITY, values, base, n, q, 1, num, ZERO_STATE, v, row);
    d := LeafDigest(state);
  }

  /** `now` is `was` with the first `q` digests of `block` written from `out` on. */
  ghost predicate Written(block: seq<Digest>, was: seq<Digest>, now: seq<Digest>, out: nat, q: nat)
    requires q <= |block| && out + |block| <= |was|
  {
    && |now| == |was|
    && (forall p :: out <= p < out + q ==> now[p] == block[p - out])
    && (forall p :: 0 <= p < |now| && !(out <= p < out + q) ==> now[p] == was[p])
  }

  lemma OneMoreWritten(block: seq<Digest>, was: seq<Digest>, now: seq<Digest>, out: nat, q: nat)
    requires q < |block| && out + |block| <= |was| && Written(block, was, now, out, q)
    ensures Written(block, was, now[out + q := block[q]], out, q + 1)
  {
  }

  /** `build_merkle_tree_leaves_part`: the n leaves of a block, written from `out` on. */
  method LeavesPart(perm: Permutation, values: array<Fp>, base: nat, num: nat, n: nat, results: array<Digest>, out: nat,
                    ghost v: seq<Fp>, ghost block: seq<Digest>)
    requires HasColumns(v, n, num) && base + |v| <= values.Length && v == values[base..base + |v|]
    requires block == RowDigests(perm, RegionRow(v, n), n) && out + n <= results.Length
    modifies results
    ensures Written(block, old(results[..]), results[..], out, n)
  {
    ghost var was := results[..];
    for q: nat := 0 to n
      invariant Written(block, was, results[..], out, q)
    {
      OneMoreWritten(block, was, results[..], out, q);
      var d := BlockLeaf(perm, values, base, num, n, q, v);
      results[out + q] := d;
    }
  }
}
