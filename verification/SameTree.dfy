// The segmented build and the in-place build hash the same rows.
module SameTree {
  import opened Field
  import opened Bits
  import opened Roots
  import opened Ntt
  import opened Coset
  import opened Columns
  import opened Leaves
  import opened CosetPasses
  import opened InPlaceTree
  import opened PartialTree
  import opened SegmentedTree
  import opened SegmentedRounds

  lemma PaddedExtension(order: nat, c: Poly, k: nat, rateBits: nat)
    requires 1 <= order <= 32 && 5 <= k && |c| == Pow2(k) <= Pow2(k + rateBits)
    ensures ForwardUpTo(order, k + rateBits, k + rateBits)(PadCoset(c, k, Pow2(k + rateBits)))
            == Extension(order, c, k, rateBits)
    ensures |PadCoset(c, k, Pow2(k + rateBits))| == Pow2(k + rateBits)
  {
    var zeros := seq(if |c| <= Pow2(k + rateBits) then Pow2(k + rateBits) - |c| else 0, _ => 0);
    assert Zeros(Pow2(k + rateBits) - |c|) == zeros;
  }

  /** The buffer of a segment holds the low-degree extensions of its columns. */
  lemma {:induction false} SegmentsAreExtensions(order: nat, v: seq<Fp>, k: nat, rateBits: nat)
    requires 1 <= order <= 32 && 5 <= k && Pow2(k) <= Pow2(k + rateBits)
    ensures SegmentColumns(order, v, k, rateBits) == Extended(order, v, k, rateBits)
    decreases |v|
  {
    var n, size := Pow2(k), Pow2(k + rateBits);
    if |v| >= n {
      SegmentsAreExtensions(order, v[n..], k, rateBits);
      PaddedExtension(order, v[..n], k, rateBits);
      EachCons(ForwardUpTo(order, k + rateBits, k + rateBits), size, PadCoset(v[..n], k, size),
               Padded(v[n..], n, k, size));
    }
  }

  /** With one row per hash, the digests of the segmented build are the leaves of the in-place build. */
  lemma SegmentedLeafIsExtensionLeaf(perm: Permutation, order: nat, v: seq<Fp>, k: nat, rateBits: nat, num: nat, t: nat)
    requires k + rateBits <= order <= 32 && 5 <= k && |v| == num * Pow2(k) && t < Pow2(k + rateBits)
    ensures Pow2(k) <= Pow2(k + rateBits)
    ensures LeafDigest(LeafState(perm, order, v, k, rateBits, 1, Pow2(k + rateBits), num > CAPACITY, t))
         == RowDigests(perm, ExtensionRow(v, k, rateBits), Pow2(k + rateBits))[t]
  {
    var size := Pow2(k + rateBits);
    Pow2Monotone(k, k + rateBits);
    SegmentsAreExtensions(order, v, k, rateBits);
    StoredIsEvaluation(order, v, k, rateBits, t);
    RowOfLeaf(v, k, rateBits, t, ExtensionPoint(k, rateBits, t));
    SegmentColumnsLength(order, v, k, rateBits, num);
    LeafValuesLength(SegmentColumns(order, v, k, rateBits), size, t, 1, num);
    assert Product(size, 1) == size && Product(t, 1) == t;
  }

  /**
   * Fewer than 32 coefficients are never copied into the buffer: the leaves do not depend on the polynomials at all.
   */
  lemma {:induction false} ShortColumnsIgnored(v: seq<Fp>, w: seq<Fp>, n: nat, k: nat, size: nat)
    requires 0 < n <= size && |v| == |w| && k < 5
    ensures Padded(v, n, k, size) == Padded(w, n, k, size)
    decreases |v|
  {
    if |v| >= n {
      ShortColumnsIgnored(v[n..], w[n..], n, k, size);
    }
  }

  lemma ShortColumnsSameLeaves(perm: Permutation, order: nat, v: seq<Fp>, w: seq<Fp>, k: nat, rateBits: nat, rows: nat,
                               count: nat, hash: bool, t: nat)
    requires 1 <= order <= 32 && Pow2(k) <= Pow2(k + rateBits) && k < 5 && |v| == |w|
    ensures LeafState(perm, order, v, k, rateBits, rows, count, hash, t)
            == LeafState(perm, order, w, k, rateBits, rows, count, hash, t)
  {
    ShortColumnsIgnored(v, w, Pow2(k), k, Pow2(k + rateBits));
  }

  // ---- Below 32 coefficients ----

  /** Every leaf of the segmented build has the digest that the in-place build gives it. */
  ghost predicate SameDigests(perm: Permutation, order: nat, v: seq<Fp>, k: nat, rateBits: nat, num: nat)
    requires k + rateBits <= 32 && 1 <= order <= 32 && Pow2(k) <= Pow2(k + rateBits)
  {
    forall t: nat :: t < Pow2(k + rateBits) ==> SameDigest(perm, order, v, k, rateBits, num, t)
  }

  predicate SameDigest(perm: Permutation, order: nat, v: seq<Fp>, k: nat, rateBits: nat, num: nat, t: nat)
    requires k + rateBits <= 32 && 1 <= order <= 32 && Pow2(k) <= Pow2(k + rateBits) && t < Pow2(k + rateBits)
  {
    LeafDigest(LeafState(perm, order, v, k, rateBits, 1, Pow2(k + rateBits), num > CAPACITY, t))
    == RowDigests(perm, ExtensionRow(v, k, rateBits), Pow2(k + rateBits))[t]
  }

  /** The constant polynomial one, with 2^k coefficients. */
  function One(k: nat): (c: Poly)
    ensures |c| == Pow2(k)
  {
    [1] + seq<Fp>(Pow2(k) - 1, _ => 0)
  }

  /** Its column stays zero in the buffer, and so do its values. */
  lemma OneLost(order: nat, k: nat, rateBits: nat, t: nat)
    requires k + rateBits <= order <= 32 && 1 <= order && k < 5 && Pow2(k) <= Pow2(k + rateBits) &&
             t < Pow2(k + rateBits)
    ensures LeafValues(SegmentColumns(order, One(k), k, rateBits), Pow2(k + rateBits), t, 1) == [0]
  {
    var size := Pow2(k + rateBits);
    assert One(k)[..Pow2(k)] == One(k) && Padded(One(k)[Pow2(k)..], Pow2(k), k, size) == [];
    assert Padded(One(k), Pow2(k), k, size) == Zeros(size);
    var f := ForwardUpTo(order, k + rateBits, k + rateBits);
    EachCons(f, size, Zeros(size), []);
    assert Zeros(size) + [] == Zeros(size) && EachColumn(f, size, []) == [];
    assert EachColumn(f, size, Zeros(size)) == f(Zeros(size));
    var x := Pow(Root(k + rateBits), Rev(k + rateBits, t));
    NttIsEvaluation(order, Zeros(size), k + rateBits, t);
    EvalZeros(Zeros(size), x);
    LeafCons(f(Zeros(size)), [], size, t);
  }

  /** The in-place build reads it as one everywhere. */
  lemma OneKept(k: nat, rateBits: nat, t: nat)
    requires k + rateBits <= 32
    ensures ExtensionRow(One(k), k, rateBits)(t) == [1]
  {
    var x := LeafPoint(k, rateBits, t);
    var zeros := seq<Fp>(Pow2(k) - 1, _ => 0);
    OneColumn(One(k), Pow2(k), x);
    EvalZeros(zeros, x);
    assert One(k)[1..] == zeros;
    ZeroLaws(x);
    RowOfLeaf(One(k), k, rateBits, t, x);
  }

  /** A single value is stored without hashing. */
  lemma SingleValue(perm: Permutation, x: Fp)
    ensures LeafDigest(AbsorbRow(perm, false, ZERO_STATE, [x]))[0] == x
    ensures RowDigest(perm, [x])[0] == x
  {
    assert AbsorbRow(perm, false, ZERO_STATE, [x]) == Overwrite(ZERO_STATE, [x]);
  }

  /** Below 32 coefficients every leaf of the constant polynomial one differs between the builds. */
  lemma OneDiffers(perm: Permutation, order: nat, k: nat, rateBits: nat, t: nat)
    requires k + rateBits <= order <= 32 && 1 <= order && k < 5 && Pow2(k) <= Pow2(k + rateBits) &&
             t < Pow2(k + rateBits)
    ensures !SameDigest(perm, order, One(k), k, rateBits, 1, t)
  {
    var size := Pow2(k + rateBits);
    OneLost(order, k, rateBits, t);
    OneKept(k, rateBits, t);
    SingleValue(perm, 0);
    SingleValue(perm, 1);
    hide AbsorbRow, LeafValues, SegmentColumns, ExtensionRow, EachColumn, Pow2;
    assert Product(size, 1) == size && Product(t, 1) == t;
    assert LeafState(perm, order, One(k), k, rateBits, 1, size, false, t) == AbsorbRow(perm, false, ZERO_STATE, [0]);
    assert RowDigests(perm, ExtensionRow(One(k), k, rateBits), size)[t] == RowDigest(perm, [1]);
  }

  /** The segmented build gives all polynomials the leaves of the in-place build exactly from 32 coefficients on. */
  lemma SegmentedSameExactlyFromThirtyTwo(perm: Permutation, order: nat, k: nat, rateBits: nat)
    requires k + rateBits <= order <= 32 && 1 <= order
    ensures Pow2(k) <= Pow2(k + rateBits)
    ensures (forall v: seq<Fp>, num: nat :: |v| == num * Pow2(k) ==> SameDigests(perm, order, v, k, rateBits, num)) <==>
            k >= 5
  {
    Pow2Monotone(k, k + rateBits);
    if k >= 5 {
      forall v: seq<Fp>, num: nat | |v| == num * Pow2(k)
        ensures SameDigests(perm, order, v, k, rateBits, num)
      {
        forall t: nat | t < Pow2(k + rateBits)
          ensures SameDigest(perm, order, v, k, rateBits, num, t)
        {
          SegmentedLeafIsExtensionLeaf(perm, order, v, k, rateBits, num, t);
        }
      }
    } else {
      var t: nat := 0;
      OneDiffers(perm, order, k, rateBits, t);
      assert |One(k)| == 1 * Pow2(k) && !SameDigests(perm, order, One(k), k, rateBits, 1);
    }
  }
}
