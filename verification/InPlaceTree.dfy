// The memory-efficient commitment: one coefficient buffer, rescaled from coset to coset,
// transformed, hashed into a block of leaves, transformed back, and finally unscaled.
module InPlaceTree {
  import opened Field
  import opened Bits
  import opened Roots
  import opened Coset
  import opened Device
  import opened Columns
  import opened Leaves
  import opened CosetPasses
  import opened MerkleNodes

  // ---- Specification ----

  /** The point of leaf p: below 32 coefficients `mul_exp` does nothing, so all passes use the subgroup itself. */
  function LeafPoint(k: nat, rateBits: nat, p: nat): Fp
    requires k + rateBits <= 32
  {
    if k < 5 then Pow(Root(k), Rev(k, p % Pow2(k))) else ExtensionPoint(k, rateBits, p)
  }

  /** Row p of the extension: every polynomial of `v` at the point of leaf p. */
  function ExtensionRow(v: seq<Fp>, k: nat, rateBits: nat): nat -> seq<Fp>
    requires k + rateBits <= 32
  {
    (p: nat) => EvalRow(v, Pow2(k), LeafPoint(k, rateBits, p))
  }

  // ---- Blocks of leaves in bit-reversed order ----

  /** The pass that writes leaf p. */
  function PassOf(n: nat, rateBits: nat): nat -> nat
    requires n > 0
  {
    (p: nat) => Rev(rateBits, p / n)
  }

  /** The leaves of passes 0..i-1 are written, everything else is untouched. */
  ghost predicate PassesDone(spec: seq<Digest>, was: seq<Digest>, now: seq<Digest>, pass: nat -> nat, i: nat)
  {
    && |spec| <= |was| == |now|
    && (forall p: nat :: p < |spec| ==> now[p] == if pass(p) < i then spec[p] else was[p])
    && (forall p: nat :: |spec| <= p < |now| ==> now[p] == was[p])
  }

  /** Pass i writes exactly the leaves whose block number is the reversal of i. */
  lemma BlockOfPass(rateBits: nat, i: nat, p: nat, n: nat, blocks: nat, out: nat)
    requires n > 0 && blocks == Pow2(rateBits) && i < blocks && p < blocks * n && out == Rev(rateBits, i) * n
    ensures Rev(rateBits, p / n) == i <==> out <= p < out + n
  {
    QuotientRange(p, n, Rev(rateBits, i));
    QuotientBound(p, blocks, n);
    RevInvolution(rateBits, i);
    RevInvolution(rateBits, p / n);
  }

  lemma BlockFits(b: nat, blocks: nat, n: nat)
    requires b < blocks
    ensures b * n + n <= blocks * n
  {
    MultipleAtLeast(blocks - b, n);
    assert (blocks - b) * n == blocks * n - b * n;
  }

  lemma PassDone(spec: seq<Digest>, was: seq<Digest>, now: seq<Digest>, next: seq<Digest>, pass: nat -> nat, i: nat,
                 n: nat, out: nat, block: seq<Digest>)
    requires out + n <= |spec| && block == spec[out..out + n] && n == |block|
    requires forall p: nat :: p < |spec| ==> (pass(p) == i <==> out <= p < out + n)
    requires PassesDone(spec, was, now, pass, i) && Written(block, now, next, out, n)
    ensures PassesDone(spec, was, next, pass, i + 1)
  {
  }

  lemma AllPassesDone(spec: seq<Digest>, was: seq<Digest>, now: seq<Digest>, n: nat, rateBits: nat)
    requires n > 0 && PassesDone(spec, was, now, PassOf(n, rateBits), Pow2(rateBits))
    ensures now == spec + was[|spec|..]
  {
    assert forall p: nat :: PassOf(n, rateBits)(p) < Pow2(rateBits);
  }

  // ---- The passes ----

  /** The shift accumulated in the buffer before pass i. */
  function Accumulated(k: nat, rateBits: nat, i: nat): Fp
    requires k + rateBits <= 32
  {
    if i == 0 then 1 else PassShift(k, rateBits, i - 1)
  }

  /** `mul_val` in pass i: first the coset generator, from then on the root of the large domain. */
  function PassFactor(k: nat, rateBits: nat, i: nat): Fp
    requires k + rateBits <= 32
  {
    if i == 0 then GENERATOR else Root(k + rateBits)
  }

  lemma AccumulateFactor(k: nat, rateBits: nat, i: nat)
    requires k + rateBits <= 32
    ensures Mul(Accumulated(k, rateBits, i), PassFactor(k, rateBits, i)) == PassShift(k, rateBits, i)
  {
    if i > 0 {
      var r := Root(k + rateBits);
      MulAssoc(GENERATOR, Pow(r, i - 1), r);
      MulComm(Pow(r, i - 1), r);
    } else {
      MulOne(GENERATOR);
    }
  }

  /** The columns `v` with the accumulated shift s on them. */
  function Shifted(v: seq<Fp>, k: nat, s: Fp): seq<Fp>
  {
    EachColumn(Rescaling(k, s), Pow2(k), v)
  }

  /** The columns `v` after the shift s and the forward transform. */
  function OnCoset(order: nat, v: seq<Fp>, k: nat, s: Fp): seq<Fp>
    requires 1 <= order <= 32
  {
    EachColumn(Transformed(order, k, s), Pow2(k), v)
  }

  lemma OnCosetLength(order: nat, v: seq<Fp>, k: nat, s: Fp)
    requires 1 <= order <= 32
    ensures |OnCoset(order, v, k, s)| == |v| == |Shifted(v, k, s)|
  {
    EachLength(Transformed(order, k, s), Pow2(k), v);
    EachLength(Rescaling(k, s), Pow2(k), v);
  }

  /** On to another coset. */
  method Rescale(order: nat, k: nat, values: array<Fp>, base: nat, num: nat, m: Fp,
                 ghost pre: seq<Fp>, ghost v: seq<Fp>, ghost post: seq<Fp>, ghost s: Fp)
    requires 1 <= order <= 32 && |pre| == base && |v| == num * Pow2(k)
    requires values[..] == pre + Shifted(v, k, s) + post
    modifies values
    ensures values[..] == pre + Shifted(v, k, Mul(s, m)) + post
  {
    OnCosetLength(order, v, k, s);
    BatchMulExp(order, k, values, base, num, m, pre, Shifted(v, k, s), post);
    RescaleEach(v, k, s, m);
  }

  /** First half of a pass: from coefficients to values. */
  method ToCoset(order: nat, k: nat, values: array<Fp>, base: nat, num: nat,
                 ghost pre: seq<Fp>, ghost v: seq<Fp>, ghost post: seq<Fp>, ghost s: Fp) returns (ok: bool)
    requires 1 <= order <= 32 && |pre| == base && |v| == num * Pow2(k)
    requires values[..] == pre + Shifted(v, k, s) + post
    modifies values
    ensures ok <==> k >= 1
    ensures ok ==> values[..] == pre + OnCoset(order, v, k, s) + post
  {
    OnCosetLength(order, v, k, s);
    ok := BatchForward(order, k, values, base, num, pre, Shifted(v, k, s), post);
    TransformEach(order, v, k, s);
  }

  /** Second half of a pass: back to coefficients. */
  method FromCoset(order: nat, k: nat, values: array<Fp>, base: nat, num: nat,
                   ghost pre: seq<Fp>, ghost v: seq<Fp>, ghost post: seq<Fp>, ghost s: Fp) returns (ok: bool)
    requires 1 <= order <= 32 && |pre| == base && |v| == num * Pow2(k)
    requires values[..] == pre + OnCoset(order, v, k, s) + post
    modifies values
    ensures ok <==> k >= 1
    ensures ok ==> values[..] == pre + Shifted(v, k, s) + post
  {
    OnCosetLength(order, v, k, s);
    ok := BatchInverse(order, k, values, base, num, pre, OnCoset(order, v, k, s), post);
    TransformBackEach(order, v, k, s);
  }

  /** The value by which the last rescaling multiplies: the inverse of the whole accumulated shift. */
  function ShiftInverse(k: nat, rateBits: nat): Fp
    requires k + rateBits <= 32
  {
    Mul(GENERATOR_INV, Pow(InverseRoot(k + rateBits), Pow2(rateBits) - 1))
  }

  lemma ShiftInverted(k: nat, rateBits: nat)
    requires k + rateBits <= 32
    ensures Mul(PassShift(k, rateBits, Pow2(rateBits) - 1), ShiftInverse(k, rateBits)) == 1
  {
    var e := Pow2(rateBits) - 1;
    var a, b := Pow(Root(k + rateBits), e), Pow(InverseRoot(k + rateBits), e);
    RootInverse(k + rateBits);
    PowProduct(Root(k + rateBits), InverseRoot(k + rateBits), e);
    PowOne(e);
    MulAssoc(GENERATOR, a, Mul(GENERATOR_INV, b));
    MulSwap(a, GENERATOR_INV, b);
    MulOne(GENERATOR_INV);
    Inverses();
  }

  /** The rescaling after the last pass restores the coefficients. */
  method Unscale(order: nat, k: nat, rateBits: nat, values: array<Fp>, base: nat, num: nat,
                 ghost pre: seq<Fp>, ghost v: seq<Fp>, ghost post: seq<Fp>)
    requires 1 <= order <= 32 && k + rateBits <= 32 && |pre| == base && |v| == num * Pow2(k)
    requires values[..] == pre + Shifted(v, k, PassShift(k, rateBits, Pow2(rateBits) - 1)) + post
    modifies values
    ensures values[..] == pre + v + post
  {
    ghost var s := PassShift(k, rateBits, Pow2(rateBits) - 1);
    Rescale(order, k, values, base, num, ShiftInverse(k, rateBits), pre, v, post, s);
    ShiftInverted(k, rateBits);
    RescaleByOne(v, k);
  }

  lemma PointOfLeaf(k: nat, rateBits: nat, i: nat, q: nat, out: nat)
    requires k + rateBits <= 32 && i < Pow2(rateBits) && q < Pow2(k) && out == Rev(rateBits, i) * Pow2(k)
    ensures Mul(if k < 5 then 1 else PassShift(k, rateBits, i), Pow(Root(k), Rev(k, q)))
            == LeafPoint(k, rateBits, out + q)
  {
    if k < 5 {
      DivModUnique(out + q, Pow2(k), Rev(rateBits, i), q);
      MulOne(Pow(Root(k), Rev(k, q)));
    } else {
      PassCoversBlock(k, rateBits, i, q, out + q);
    }
  }

  lemma RowOfLeaf(v: seq<Fp>, k: nat, rateBits: nat, p: nat, x: Fp)
    requires k + rateBits <= 32 && x == LeafPoint(k, rateBits, p)
    ensures ExtensionRow(v, k, rateBits)(p) == EvalRow(v, Pow2(k), x)
  {
  }

  /** The rows hashed in pass i are a block of rows of the extension. */
  lemma BlockIsExtension(order: nat, v: seq<Fp>, k: nat, rateBits: nat, i: nat, q: nat, out: nat)
    requires k <= order <= 32 && 1 <= order && k + rateBits <= 32
    requires i < Pow2(rateBits) && q < Pow2(k) && out == Rev(rateBits, i) * Pow2(k)
    ensures LeafValues(OnCoset(order, v, k, PassShift(k, rateBits, i)), Pow2(k), q, 1)
            == ExtensionRow(v, k, rateBits)(out + q)
  {
    var x := LeafPoint(k, rateBits, out + q);
    PointOfLeaf(k, rateBits, i, q, out);
    LeafIsEvaluation(order, v, k, PassShift(k, rateBits, i), q, x);
    RowOfLeaf(v, k, rateBits, out + q, x);
  }

  lemma BlockOfRows(perm: Permutation, hashed: nat -> seq<Fp>, n: nat, row: nat -> seq<Fp>, spec: seq<Digest>, out: nat)
    requires out + n <= |spec| && spec == RowDigests(perm, row, |spec|)
    requires forall q: nat :: q < n ==> hashed(q) == row(out + q)
    ensures RowDigests(perm, hashed, n) == spec[out..out + n]
  {
    hide RowDigest;
    var block := RowDigests(perm, hashed, n);
    forall q: nat | q < n
      ensures block[q] == spec[out + q]
    {
      assert hashed(q) == row(out + q);
    }
  }

  lemma LeafCount(k: nat, rateBits: nat)
    ensures Pow2(k + rateBits) == Pow2(rateBits) * Pow2(k)
  {
    Pow2Add(k, rateBits);
  }

  /** `block` is the block of `spec` at `out`, which holds the leaves of pass i. */
  ghost predicate IsBlockOfPass(block: seq<Digest>, spec: seq<Digest>, pass: nat -> nat, i: nat, out: nat)
  {
    && out + |block| <= |spec| && block == spec[out..out + |block|]
    && (forall p: nat :: p < |spec| ==> (pass(p) == i <==> out <= p < out + |block|))
  }

  /** The place of block i, for any rows that agree with those of the whole tree. */
  lemma BlockOfThisPass(perm: Permutation, hashed: nat -> seq<Fp>, row: nat -> seq<Fp>, k: nat, rateBits: nat, i: nat,
                        out: nat, spec: seq<Digest>)
    requires i < Pow2(rateBits) && out == Rev(rateBits, i) * Pow2(k)
    requires spec == RowDigests(perm, row, Pow2(k + rateBits))
    requires forall q: nat :: q < Pow2(k) ==> hashed(q) == row(out + q)
    ensures IsBlockOfPass(RowDigests(perm, hashed, Pow2(k)), spec, PassOf(Pow2(k), rateBits), i, out)
  {
    LeafCount(k, rateBits);
    BlockFits(Rev(rateBits, i), Pow2(rateBits), Pow2(k));
    BlockOfRows(perm, hashed, Pow2(k), row, spec, out);
    forall p: nat | p < |spec|
      ensures PassOf(Pow2(k), rateBits)(p) == i <==> out <= p < out + Pow2(k)
    {
      BlockOfPass(rateBits, i, p, Pow2(k), Pow2(rateBits), out);
    }
  }

  /** The rows hashed in pass i are rows of the extension. */
  lemma HashedRows(order: nat, v: seq<Fp>, k: nat, rateBits: nat, i: nat, out: nat)
    requires k <= order <= 32 && 1 <= order && k + rateBits <= 32
    requires i < Pow2(rateBits) && out == Rev(rateBits, i) * Pow2(k)
    ensures forall q: nat :: q < Pow2(k) ==>
              RegionRow(OnCoset(order, v, k, PassShift(k, rateBits, i)), Pow2(k))(q)
                == ExtensionRow(v, k, rateBits)(out + q)
  {
    hide Rev, OnCoset, PassShift, ExtensionRow, LeafValues;
    forall q: nat | q < Pow2(k)
      ensures RegionRow(OnCoset(order, v, k, PassShift(k, rateBits, i)), Pow2(k))(q)
              == ExtensionRow(v, k, rateBits)(out + q)
    {
      BlockIsExtension(order, v, k, rateBits, i, q, out);
    }
  }

  /** The digests computed in pass i are a block of the digests of the rows of the extension. */
  lemma HashedBlock(perm: Permutation, order: nat, v: seq<Fp>, k: nat, rateBits: nat, i: nat, out: nat,
                    spec: seq<Digest>, transformed: seq<Fp>)
    requires k <= order <= 32 && 1 <= order && k + rateBits <= 32
    requires i < Pow2(rateBits) && out == Rev(rateBits, i) * Pow2(k)
    requires spec == RowDigests(perm, ExtensionRow(v, k, rateBits), Pow2(k + rateBits))
    requires transformed == OnCoset(order, v, k, PassShift(k, rateBits, i))
    ensures IsBlockOfPass(RowDigests(perm, RegionRow(transformed, Pow2(k)), Pow2(k)), spec, PassOf(Pow2(k), rateBits),
                          i, out)
  {
    hide Rev, OnCoset, PassShift, ExtensionRow, RegionRow, RowDigests, PassOf, IsBlockOfPass;
    HashedRows(order, v, k, rateBits, i, out);
    BlockOfThisPass(perm, RegionRow(transformed, Pow2(k)), ExtensionRow(v, k, rateBits), k, rateBits, i, out, spec);
  }

  /** The hashing in the middle of pass i. */
  method HashBlock(perm: Permutation, values: array<Fp>, base: nat, num: nat, n: nat, results: array<Digest>, out: nat,
                   ghost transformed: seq<Fp>, ghost spec: seq<Digest>, ghost was: seq<Digest>, ghost pass: nat -> nat,
                   ghost i: nat)
    requires HasColumns(transformed, n, num)
    requires base + |transformed| <= values.Length && transformed == values[base..base + |transformed|]
    requires IsBlockOfPass(RowDigests(perm, RegionRow(transformed, n), n), spec, pass, i, out)
    requires PassesDone(spec, was, results[..], pass, i)
    modifies results
    ensures PassesDone(spec, was, results[..], pass, i + 1)
  {
    ghost var now, block := results[..], spec[out..out + n];
    LeavesPart(perm, values, base, num, n, results, out, transformed, block);
    PassDone(spec, was, now, results[..], pass, i, n, out, block);
  }

  lemma TransformedColumns(order: nat, k: nat, num: nat, v: seq<Fp>, s: Fp, pre: seq<Fp>, post: seq<Fp>, now: seq<Fp>)
    requires 1 <= order <= 32 && |v| == num * Pow2(k) && now == pre + OnCoset(order, v, k, s) + post
    ensures HasColumns(OnCoset(order, v, k, s), Pow2(k), num)
    ensures |pre| + |OnCoset(order, v, k, s)| <= |now|
    ensures now[|pre|..|pre| + |OnCoset(order, v, k, s)|] == OnCoset(order, v, k, s)
  {
    OnCosetLength(order, v, k, s);
    ColumnsLength(OnCoset(order, v, k, s), Pow2(k), num);
  }

  /** From the coset of the pass before to the values on the coset of pass i. */
  method ToNextCoset(order: nat, k: nat, rateBits: nat, i: nat, values: array<Fp>, base: nat, num: nat, mulVal: Fp,
                     ghost pre: seq<Fp>, ghost v: seq<Fp>, ghost post: seq<Fp>) returns (ok: bool)
    requires 1 <= order <= 32 && k + rateBits <= 32
    requires |pre| == base && |v| == num * Pow2(k) && mulVal == PassFactor(k, rateBits, i)
    requires values[..] == pre + Shifted(v, k, Accumulated(k, rateBits, i)) + post
    modifies values
    ensures ok <==> k >= 1
    ensures ok ==> values[..] == pre + OnCoset(order, v, k, PassShift(k, rateBits, i)) + post
  {
    Rescale(order, k, values, base, num, mulVal, pre, v, post, Accumulated(k, rateBits, i));
    AccumulateFactor(k, rateBits, i);
    ok := ToCoset(order, k, values, base, num, pre, v, post, PassShift(k, rateBits, i));
  }

  /** One iteration of the loop over the cosets; it fails where the transform does, before any leaf is written. */
  method CosetPass(perm: Permutation, order: nat, k: nat, rateBits: nat, i: nat, values: array<Fp>, base: nat, num: nat,
                   mulVal: Fp, results: array<Digest>, ghost pre: seq<Fp>, ghost v: seq<Fp>, ghost post: seq<Fp>,
                   ghost spec: seq<Digest>, ghost was: seq<Digest>) returns (ok: bool)
    requires k <= order <= 32 && 1 <= order && k + rateBits <= 32 && i < Pow2(rateBits)
    requires |pre| == base && |v| == num * Pow2(k) && mulVal == PassFactor(k, rateBits, i)
    requires spec == RowDigests(perm, ExtensionRow(v, k, rateBits), Pow2(k + rateBits))
    requires values[..] == pre + Shifted(v, k, Accumulated(k, rateBits, i)) + post
    requires PassesDone(spec, was, results[..], PassOf(Pow2(k), rateBits), i)
    modifies values, results
    ensures ok <==> k >= 1
    ensures ok ==> values[..] == pre + Shifted(v, k, PassShift(k, rateBits, i)) + post
    ensures ok ==> PassesDone(spec, was, results[..], PassOf(Pow2(k), rateBits), i + 1)
    ensures !ok ==> results[..] == old(results[..])
  {
    hide Rev, PassShift, RowDigests, ExtensionRow, RegionRow, PassOf, PassesDone, Shifted, Accumulated, OnCoset,
         IsBlockOfPass, PassFactor;
    ghost var s := PassShift(k, rateBits, i);
    ghost var transformed := OnCoset(order, v, k, s);
    ok := ToNextCoset(order, k, rateBits, i, values, base, num, mulVal, pre, v, post);
    if !ok {
      return;
    }
    TransformedColumns(order, k, num, v, s, pre, post, values[..]);
    var out := Rev(rateBits, i) * Pow2(k);
    HashedBlock(perm, order, v, k, rateBits, i, out, spec, transformed);
    HashBlock(perm, values, base, num, Pow2(k), results, out, transformed, spec, was, PassOf(Pow2(k), rateBits), i);
    ok := FromCoset(order, k, values, base, num, pre, v, post, s);
  }

  /** The loop over all cosets; it fails exactly for polynomials of a single coefficient. */
  method BuildLeavesInPlace(perm: Permutation, order: nat, k: nat, rateBits: nat, values: array<Fp>, base: nat,
                            num: nat, results: array<Digest>, ghost pre: seq<Fp>, ghost v: seq<Fp>, ghost post: seq<Fp>,
                            ghost spec: seq<Digest>)
    returns (ok: bool)
    requires k <= order <= 32 && 1 <= order && k + rateBits <= 32
    requires |pre| == base && |v| == num * Pow2(k) && values[..] == pre + v + post
    requires spec == RowDigests(perm, ExtensionRow(v, k, rateBits), Pow2(k + rateBits)) && |spec| <= results.Length
    modifies values, results
    ensures ok <==> k >= 1
    ensures ok ==> values[..] == old(values[..]) && results[..] == spec + old(results[|spec|..])
    ensures !ok ==> results[..] == old(results[..])
  {
    hide Rev, PassShift, RowDigests, ExtensionRow, PassOf, PassesDone, Shifted, Accumulated;
    ghost var was := results[..];
    var mulVal := GENERATOR;
    BeforePasses(v, k, rateBits, spec, was);
    ok := true;
    for i: nat := 0 to Pow2(rateBits)
      invariant ok && (i == 0 || k >= 1) && (k == 0 ==> results[..] == was)
      invariant mulVal == PassFactor(k, rateBits, i)
      invariant values[..] == pre + Shifted(v, k, Accumulated(k, rateBits, i)) + post
      invariant PassesDone(spec, was, results[..], PassOf(Pow2(k), rateBits), i)
    {
      ok := CosetPass(perm, order, k, rateBits, i, values, base, num, mulVal, results, pre, v, post, spec, was);
      if !ok {
        return;
      }
      NextAccumulated(k, rateBits, i);
      mulVal := Root(k + rateBits);
    }
    NextAccumulated(k, rateBits, Pow2(rateBits) - 1);
    AllPassesDone(spec, was, results[..], Pow2(k), rateBits);
    Unscale(order, k, rateBits, values, base, num, pre, v, post);
  }

  lemma BeforePasses(v: seq<Fp>, k: nat, rateBits: nat, spec: seq<Digest>, was: seq<Digest>)
    requires k + rateBits <= 32 && |spec| <= |was|
    ensures Shifted(v, k, Accumulated(k, rateBits, 0)) == v
    ensures PassesDone(spec, was, was, PassOf(Pow2(k), rateBits), 0)
  {
    RescaleByOne(v, k);
  }

  lemma NextAccumulated(k: nat, rateBits: nat, i: nat)
    requires k + rateBits <= 32
    ensures Accumulated(k, rateBits, i + 1) == PassShift(k, rateBits, i)
  {
  }

  // ---- The tree ----

  /** A flat tree: the leaves, then the layers as the node kernel stores them, then what was there before. */
  ghost predicate IsTree(hash: NodeHash, leaves: seq<Digest>, layersCount: nat, was: seq<Digest>, now: seq<Digest>)
    requires layersCount > 0 && |leaves| <= |was|
  {
    Built(hash, now, [], leaves, was[|leaves|..], layersCount - 1)
  }

  lemma TreeAssertions(bits: nat, layers: nat)
    ensures AssertionsHold(Pow2(bits), Pow2(bits), layers) <==> Pow2(layers) <= Pow2(bits)
  {
    AssertionsCharacterised(Pow2(bits), Pow2(bits), layers);
    Pow2IsPowerOfTwo(bits);
    if layers == 0 {
      assert Pow2(layers) == 1;
    }
  }

  /** The nodes on top of 2^bits finished leaves, in the second half of `results`. */
  method BuildTree(hash: NodeHash, results: array<Digest>, bits: nat, layersCount: nat, ghost leaves: seq<Digest>,
                   ghost was: seq<Digest>)
    returns (ok: bool)
    requires layersCount > 0 && |leaves| == Pow2(bits) && |was| == 2 * |leaves|
    requires results[..] == leaves + was[|leaves|..]
    modifies results
    ensures ok <==> Pow2(layersCount - 1) <= Pow2(bits)
    ensures ok ==> IsTree(hash, leaves, layersCount, was, results[..])
  {
    assert results[..] == [] + leaves + was[|leaves|..];
    ok := BuildNodes(hash, results, 0, Pow2(bits), Pow2(bits), layersCount - 1, [], leaves, was[|leaves|..]);
    TreeAssertions(bits, layersCount - 1);
  }

  /**
   * `build_merkle_tree_in_place`: the coefficients end up as they were, the leaves are the digests of the rows
   * of the extension in bit-reversed order, and the layers of nodes follow them, stored as the node kernel does.
   * `ok` tells whether all assertions held: the transform asserts that there are at least two coefficients.
   */
  method BuildInPlace(perm: Permutation, hash: NodeHash, order: nat, k: nat, rateBits: nat, values: array<Fp>,
                      base: nat, num: nat, results: array<Digest>, layersCount: nat, ghost pre: seq<Fp>,
                      ghost v: seq<Fp>, ghost post: seq<Fp>, ghost spec: seq<Digest>)
    returns (ok: bool)
    requires k <= order <= 32 && 1 <= order && k + rateBits <= 32 && 1 <= layersCount
    requires |pre| == base && |v| == num * Pow2(k) && values[..] == pre + v + post
    requires results.Length == 2 * Pow2(k + rateBits)
    requires spec == RowDigests(perm, ExtensionRow(v, k, rateBits), Pow2(k + rateBits))
    modifies values, results
    ensures ok <==> k >= 1 && Pow2(layersCount - 1) <= Pow2(k + rateBits)
    ensures k >= 1 ==> values[..] == old(values[..])
    ensures ok ==> IsTree(hash, spec, layersCount, old(results[..]), results[..])
  {
    ghost var was := results[..];
    ok := BuildLeavesInPlace(perm, order, k, rateBits, values, base, num, results, pre, v, post, spec);
    if !ok {
      return;
    }
    ok := BuildTree(hash, results, k + rateBits, layersCount, spec, was);
  }
}
