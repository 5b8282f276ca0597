// The commitment with some columns already extended: stored extension columns are read where they lie,
// the others are computed on the fly as in the in-place build.
module PartialTree {
  import opened Field
  import opened Bits
  import opened Roots
  import opened Ntt
  import opened Coset
  import opened Leaves
  import opened MerkleNodes
  import opened CosetPasses
  import opened InPlaceTree
  import opened SmallDegrees

  // ---- The kernel ----

  /** The value that a thread starting at `ldesStart` and `valuesStart` loads for a column is the one in `row`. */
  ghost predicate LoadsAt(row: seq<Fp>, ldes: seq<Fp>, ldesStart: nat, count: nat, numLdes: nat,
                          values: seq<Fp>, valuesStart: nat, n: nat, col: nat)
    requires col < |row|
  {
    if col < numLdes then ldesStart + Product(col, count) < |ldes| && ldes[ldesStart + Product(col, count)] == row[col]
    else valuesStart + Product(col, n) < |values| && values[valuesStart + Product(col, n)] == row[col]
  }

  ghost predicate Loads(row: seq<Fp>, ldes: seq<Fp>, ldesStart: nat, count: nat, numLdes: nat,
                        values: seq<Fp>, valuesStart: nat, n: nat)
  {
    forall col: nat :: col < |row| ==> LoadsAt(row, ldes, ldesStart, count, numLdes, values, valuesStart, n, col)
  }

  method LoadColumn(ldes: array<Fp>, ldesStart: nat, count: nat, numLdes: nat,
                    values: array<Fp>, valuesStart: nat, n: nat, col: nat, ghost row: seq<Fp>) returns (x: Fp)
    requires col < |row| && Loads(row, ldes[..], ldesStart, count, numLdes, values[..], valuesStart, n)
    ensures x == row[col]
  {
    assert LoadsAt(row, ldes[..], ldesStart, count, numLdes, values[..], valuesStart, n, col);
    if col < numLdes {
      x := ldes[ldesStart + Product(col, count)];
    } else {
      x := values[valuesStart + Product(col, n)];
    }
  }

  /** The inner loop of `single_thread_leaves_partial_impl`. */
  method PartialRound(ldes: array<Fp>, ldesStart: nat, count: nat, numLdes: nat, values: array<Fp>, valuesStart: nat,
                      n: nat, numNtts: nat, col: nat, before: State, ghost row: seq<Fp>) returns (state: State)
    requires numNtts == |row| && Loads(row, ldes[..], ldesStart, count, numLdes, values[..], valuesStart, n) &&
             col <= |row|
    ensures state == Overwrite(before, Chunk(row, col, RATE))
  {
    hide Chunk, Overwrite, Loads;
    state := before;
    NothingLoaded(before, row, col);
    for i: nat := 0 to RATE
      invariant state == Overwrite(before, Chunk(row, col, i))
    {
      if col + i < numNtts {
        var x := LoadColumn(ldes, ldesStart, count, numLdes, values, valuesStart, n, col + i, row);
        state := state[i := x];
        OneLoaded(before, row, col, i);
      } else {
        NoneLeft(row, col, i);
      }
    }
  }

  /** One thread of `single_thread_leaves_partial_impl`. */
  method PartialThread(perm: Permutation, ldes: array<Fp>, ldesStart: nat, count: nat, numLdes: nat, values: array<Fp>,
                       valuesStart: nat, n: nat, numNtts: nat, ghost row: seq<Fp>) returns (d: Digest)
    requires numNtts == |row| && Loads(row, ldes[..], ldesStart, count, numLdes, values[..], valuesStart, n)
    ensures d == RowDigest(perm, row)
    ensures |row| <= 4 ==> d == row + seq<Fp>(4 - |row|, _ => 0)
    ensures 5 <= |row| <= 8 ==> d == perm(row + seq<Fp>(12 - |row|, _ => 0))[..4]
  {
    if |row| <= 4 {
      ShortRowDigest(perm, row);
    } else if |row| <= 8 {
      OneRoundDigest(perm, row);
    }
    var state: State, col: nat := ZERO_STATE, 0;
    assert row[0..] == row;
    while col < numNtts
      invariant AbsorbRow(perm, numNtts > CAPACITY, state, if col <= numNtts then row[col..] else [])
             == AbsorbRow(perm, numNtts > CAPACITY, ZERO_STATE, row)
    {
      RoundDone(perm, numNtts > CAPACITY, state, row, col);
      state := PartialRound(ldes, ldesStart, count, numLdes, values, valuesStart, n, numNtts, col, state, row);
      if numNtts > CAPACITY {
        state := perm(state);
      }
      col := col + RATE;
    }
    d := LeafDigest(state);
  }

  // ---- The rows of a block ----

  /** Row q of a block: the stored values at `at + q`, then the computed ones at q. */
  function PartialRow(stored: seq<Fp>, count: nat, at: nat, computed: seq<Fp>, n: nat): nat -> seq<Fp>
  {
    (q: nat) =>
      if q < n && at + q < count then LeafValues(stored, count, at + q, 1) + LeafValues(computed, n, q, 1) else []
  }

  /** A region of `num` columns of length `n` inside a buffer. */
  ghost predicate Region(buffer: seq<Fp>, base: nat, v: seq<Fp>, n: nat, num: nat)
  {
    base + |v| <= |buffer| && v == buffer[base..base + |v|] && |v| == num * n
  }

  lemma ColumnOffset(col: nat, numLdes: nat, n: nat)
    requires numLdes <= col
    ensures Product(col, n) == Product(numLdes, n) + Product(col - numLdes, n)
  {
    assert col * n == numLdes * n + (col - numLdes) * n;
  }

  /** One column of a region, as a thread addresses it. */
  lemma ColumnLoad(buffer: seq<Fp>, base: nat, v: seq<Fp>, n: nat, num: nat, q: nat, col: nat)
    requires Region(buffer, base, v, n, num) && q < n && col < num
    ensures |LeafValues(v, n, q, 1)| == num
    ensures base + q + Product(col, n) < |buffer| && buffer[base + q + Product(col, n)] == LeafValues(v, n, q, 1)[col]
  {
    LeafValuesLength(v, n, q, 1, num);
    LeafValueAt(v, n, q, 1, num, 0, col);
    assert v[Address(col, n, q, 0)] == buffer[base + q + Product(col, n)];
  }

  lemma PartialLoads(ldes: seq<Fp>, ldesOffset: nat, stored: seq<Fp>, count: nat, numLdes: nat, at: nat,
                     values: seq<Fp>, valuesOffset: nat, computed: seq<Fp>, n: nat, num: nat, q: nat)
    requires Region(ldes, ldesOffset, stored, count, numLdes)
    requires Region(values, valuesOffset + Product(numLdes, n), computed, n, num)
    requires q < n && at + q < count
    ensures |PartialRow(stored, count, at, computed, n)(q)| == numLdes + num
    ensures Loads(PartialRow(stored, count, at, computed, n)(q), ldes, ldesOffset + at + q, count, numLdes, values,
                  valuesOffset + q, n)
  {
    var row, start, start' := PartialRow(stored, count, at, computed, n)(q), ldesOffset + at + q, valuesOffset + q;
    LeafValuesLength(stored, count, at + q, 1, numLdes);
    LeafValuesLength(computed, n, q, 1, num);
    forall col: nat | col < numLdes + num
      ensures LoadsAt(row, ldes, start, count, numLdes, values, start', n, col)
    {
      if col < numLdes {
        ColumnLoad(ldes, ldesOffset, stored, count, numLdes, at + q, col);
      } else {
        ColumnLoad(values, valuesOffset + Product(numLdes, n), computed, n, num, q, col - numLdes);
        ColumnOffset(col, numLdes, n);
      }
    }
  }

  /** The launch over the n threads of one block, written from `out` on. */
  method PartialBlock(perm: Permutation, ldes: array<Fp>, ldesOffset: nat, count: nat, numLdes: nat,
                      values: array<Fp>, valuesOffset: nat, n: nat, num: nat, results: array<Digest>, out: nat,
                      ghost stored: seq<Fp>, ghost computed: seq<Fp>, ghost block: seq<Digest>)
    requires Region(ldes[..], ldesOffset, stored, count, numLdes)
    requires Region(values[..], valuesOffset + Product(numLdes, n), computed, n, num)
    requires out + n <= count <= results.Length &&
             block == RowDigests(perm, PartialRow(stored, count, out, computed, n), n)
    modifies results
    ensures Written(block, old(results[..]), results[..], out, n)
  {
    hide Region, Loads, RowDigest, PartialRow;
    ghost var was := results[..];
    for q: nat := 0 to n
      invariant Written(block, was, results[..], out, q)
    {
      OneMoreWritten(block, was, results[..], out, q);
      PartialLoads(ldes[..], ldesOffset, stored, count, numLdes, out, values[..], valuesOffset, computed, n, num, q);
      var d := PartialThread(perm, ldes, ldesOffset + out + q, count, numLdes, values, valuesOffset + q, n,
                             numLdes + num,
                             PartialRow(stored, count, out, computed, n)(q));
      results[out + q] := d;
    }
  }

  // ---- The loop over the cosets ----

  /** Row p of the tree: what is stored for the extended columns, then the other polynomials at the point of leaf p. */
  function TreeRow(stored: seq<Fp>, v: seq<Fp>, k: nat, rateBits: nat): nat -> seq<Fp>
    requires k + rateBits <= 32
  {
    (p: nat) =>
      if p < Pow2(k + rateBits)
      then LeafValues(stored, Pow2(k + rateBits), p, 1) + ExtensionRow(v, k, rateBits)(p) else []
  }

  lemma PartialRowOfPass(order: nat, stored: seq<Fp>, v: seq<Fp>, k: nat, rateBits: nat, i: nat, out: nat,
                         transformed: seq<Fp>, q: nat)
    requires k <= order <= 32 && 1 <= order && k + rateBits <= 32
    requires i < Pow2(rateBits) && out == Rev(rateBits, i) * Pow2(k) && out + q < Pow2(k + rateBits) && q < Pow2(k)
    requires transformed == OnCoset(order, v, k, PassShift(k, rateBits, i))
    ensures PartialRow(stored, Pow2(k + rateBits), out, transformed, Pow2(k))(q)
            == TreeRow(stored, v, k, rateBits)(out + q)
  {
    hide OnCoset, PassShift, Rev, LeafValues, ExtensionRow;
    BlockIsExtension(order, v, k, rateBits, i, q, out);
  }

  lemma PartialBlockOfPass(perm: Permutation, order: nat, stored: seq<Fp>, v: seq<Fp>, k: nat, rateBits: nat, i: nat,
                           out: nat, transformed: seq<Fp>, spec: seq<Digest>, hashed: nat -> seq<Fp>)
    requires k <= order <= 32 && 1 <= order && k + rateBits <= 32
    requires i < Pow2(rateBits) && out == Rev(rateBits, i) * Pow2(k)
    requires transformed == OnCoset(order, v, k, PassShift(k, rateBits, i))
    requires hashed == PartialRow(stored, Pow2(k + rateBits), out, transformed, Pow2(k))
    requires spec == RowDigests(perm, TreeRow(stored, v, k, rateBits), Pow2(k + rateBits))
    ensures IsBlockOfPass(RowDigests(perm, hashed, Pow2(k)), spec, PassOf(Pow2(k), rateBits), i, out)
  {
    LeafCount(k, rateBits);
    BlockFits(Rev(rateBits, i), Pow2(rateBits), Pow2(k));
    var row := TreeRow(stored, v, k, rateBits);
    forall q: nat | q < Pow2(k)
      ensures hashed(q) == row(out + q)
    {
      PartialRowOfPass(order, stored, v, k, rateBits, i, out, transformed, q);
    }
    BlockOfThisPass(perm, hashed, row, k, rateBits, i, out, spec);
  }

  /** The hashing in the middle of pass i. */
  method HashPartialBlock(perm: Permutation, ldes: array<Fp>, ldesOffset: nat, count: nat, numLdes: nat,
                          values: array<Fp>, valuesOffset: nat, n: nat, num: nat, results: array<Digest>, out: nat,
                          ghost stored: seq<Fp>, ghost computed: seq<Fp>,
                          ghost spec: seq<Digest>, ghost was: seq<Digest>, ghost pass: nat -> nat, ghost i: nat)
    requires Region(ldes[..], ldesOffset, stored, count, numLdes)
    requires Region(values[..], valuesOffset + Product(numLdes, n), computed, n, num)
    requires |spec| == count
    requires IsBlockOfPass(RowDigests(perm, PartialRow(stored, count, out, computed, n), n), spec, pass, i, out)
    requires PassesDone(spec, was, results[..], pass, i)
    modifies results
    ensures PassesDone(spec, was, results[..], pass, i + 1)
  {
    ghost var now, block := results[..], spec[out..out + n];
    PartialBlock(perm, ldes, ldesOffset, count, numLdes, values, valuesOffset, n, num, results, out, stored, computed,
                 block);
    PassDone(spec, was, now, results[..], pass, i, n, out, block);
  }

  lemma NoColumns(order: nat, v: seq<Fp>, num: nat, k: nat, s: Fp, s': Fp)
    requires 1 <= order <= 32 && num == 0 && |v| == num * Pow2(k)
    ensures Shifted(v, k, s) == v == OnCoset(order, v, k, s')
  {
  }

  /** The assertion of the transforms holds, or none is made because every column is stored. */
  predicate TransformsAllowed(k: nat, num: nat)
  {
    k >= 1 || num == 0
  }

  /** The transforms before the hashing, skipped when every column is stored. */
  method ToNextCosetIfAny(order: nat, k: nat, rateBits: nat, i: nat, values: array<Fp>, base: nat, num: nat, mulVal: Fp,
                          ghost pre: seq<Fp>, ghost v: seq<Fp>, ghost post: seq<Fp>) returns (ok: bool)
    requires 1 <= order <= 32 && k + rateBits <= 32
    requires |pre| == base && |v| == num * Pow2(k) && (num > 0 ==> mulVal == PassFactor(k, rateBits, i))
    requires values[..] == pre + Shifted(v, k, Accumulated(k, rateBits, i)) + post
    modifies values
    ensures ok <==> TransformsAllowed(k, num)
    ensures ok ==> values[..] == pre + OnCoset(order, v, k, PassShift(k, rateBits, i)) + post
  {
    if num > 0 {
      ok := ToNextCoset(order, k, rateBits, i, values, base, num, mulVal, pre, v, post);
    } else {
      ok := true;
      NoColumns(order, v, num, k, Accumulated(k, rateBits, i), PassShift(k, rateBits, i));
    }
  }

  method FromCosetIfAny(order: nat, k: nat, values: array<Fp>, base: nat, num: nat,
                        ghost pre: seq<Fp>, ghost v: seq<Fp>, ghost post: seq<Fp>, ghost s: Fp) returns (ok: bool)
    requires 1 <= order <= 32 && |pre| == base && |v| == num * Pow2(k)
    requires values[..] == pre + OnCoset(order, v, k, s) + post
    modifies values
    ensures ok <==> TransformsAllowed(k, num)
    ensures ok ==> values[..] == pre + Shifted(v, k, s) + post
  {
    if num > 0 {
      ok := FromCoset(order, k, values, base, num, pre, v, post, s);
    } else {
      ok := true;
      NoColumns(order, v, num, k, s, s);
    }
  }

  method UnscaleIfAny(order: nat, k: nat, rateBits: nat, values: array<Fp>, base: nat, num: nat,
                      ghost pre: seq<Fp>, ghost v: seq<Fp>, ghost post: seq<Fp>)
    requires 1 <= order <= 32 && k + rateBits <= 32 && |pre| == base && |v| == num * Pow2(k)
    requires values[..] == pre + Shifted(v, k, PassShift(k, rateBits, Pow2(rateBits) - 1)) + post
    modifies values
    ensures values[..] == pre + v + post
  {
    if num > 0 {
      Unscale(order, k, rateBits, values, base, num, pre, v, post);
    } else {
      ghost var s := PassShift(k, rateBits, Pow2(rateBits) - 1);
      NoColumns(order, v, num, k, s, s);
    }
  }

  lemma ComputedRegion(order: nat, k: nat, num: nat, v: seq<Fp>, s: Fp, pre: seq<Fp>, post: seq<Fp>, now: seq<Fp>)
    requires 1 <= order <= 32 && |v| == num * Pow2(k) && now == pre + OnCoset(order, v, k, s) + post
    ensures Region(now, |pre|, OnCoset(order, v, k, s), Pow2(k), num)
  {
    OnCosetLength(order, v, k, s);
  }

  /** One iteration of the loop over the cosets; it fails where a transform does, before any leaf is written. */
  method PartialPass(perm: Permutation, order: nat, k: nat, rateBits: nat, i: nat, ldes: array<Fp>, ldesOffset: nat,
                     numLdes: nat, values: array<Fp>, valuesOffset: nat, base: nat, num: nat, mulVal: Fp,
                     results: array<Digest>, ghost stored: seq<Fp>, ghost pre: seq<Fp>, ghost v: seq<Fp>,
                     ghost post: seq<Fp>, ghost spec: seq<Digest>, ghost was: seq<Digest>) returns (ok: bool)
    requires ldes != values && k <= order <= 32 && 1 <= order && k + rateBits <= 32 && i < Pow2(rateBits)
    requires |v| == num * Pow2(k) && (num > 0 ==> mulVal == PassFactor(k, rateBits, i))
    requires |pre| == base == valuesOffset + Product(numLdes, Pow2(k))
    requires Region(ldes[..], ldesOffset, stored, Pow2(k + rateBits), numLdes)
    requires spec == RowDigests(perm, TreeRow(stored, v, k, rateBits), Pow2(k + rateBits))
    requires values[..] == pre + Shifted(v, k, Accumulated(k, rateBits, i)) + post
    requires PassesDone(spec, was, results[..], PassOf(Pow2(k), rateBits), i)
    modifies values, results
    ensures ok <==> TransformsAllowed(k, num)
    ensures ok ==> values[..] == pre + Shifted(v, k, PassShift(k, rateBits, i)) + post
    ensures ok ==> PassesDone(spec, was, results[..], PassOf(Pow2(k), rateBits), i + 1)
    ensures !ok ==> results[..] == old(results[..])
  {
    hide Rev, PassShift, RowDigests, TreeRow, PartialRow, PassOf, PassesDone, Shifted, Accumulated, OnCoset,
         IsBlockOfPass, PassFactor;
    ghost var s := PassShift(k, rateBits, i);
    ghost var transformed := OnCoset(order, v, k, s);
    var out := Rev(rateBits, i) * Pow2(k);
    ok := ToNextCosetIfAny(order, k, rateBits, i, values, base, num, mulVal, pre, v, post);
    if !ok {
      return;
    }
    ComputedRegion(order, k, num, v, s, pre, post, values[..]);
    PartialBlockOfPass(perm, order, stored, v, k, rateBits, i, out, transformed, spec,
                       PartialRow(stored, Pow2(k + rateBits), out, transformed, Pow2(k)));
    HashPartialBlock(perm, ldes, ldesOffset, Pow2(k + rateBits), numLdes, values, valuesOffset, Pow2(k), num, results,
                     out,
                     stored, transformed, spec, was, PassOf(Pow2(k), rateBits), i);
    ok := FromCosetIfAny(order, k, values, base, num, pre, v, post, s);
  }

  /** The loop over all cosets. */
  method PartialLeaves(perm: Permutation, order: nat, k: nat, rateBits: nat, ldes: array<Fp>, ldesOffset: nat,
                       numLdes: nat, values: array<Fp>, valuesOffset: nat, base: nat, num: nat, results: array<Digest>,
                       ghost stored: seq<Fp>, ghost pre: seq<Fp>, ghost v: seq<Fp>, ghost post: seq<Fp>,
                       ghost spec: seq<Digest>)
    returns (ok: bool)
    requires ldes != values && k <= order <= 32 && 1 <= order && k + rateBits <= 32
    requires |v| == num * Pow2(k) && values[..] == pre + v + post
    requires |pre| == base == valuesOffset + Product(numLdes, Pow2(k))
    requires Region(ldes[..], ldesOffset, stored, Pow2(k + rateBits), numLdes)
    requires spec == RowDigests(perm, TreeRow(stored, v, k, rateBits), Pow2(k + rateBits)) && |spec| <= results.Length
    modifies values, results
    ensures ok <==> TransformsAllowed(k, num)
    ensures ok ==> values[..] == old(values[..]) && results[..] == spec + old(results[|spec|..])
    ensures !ok ==> results[..] == old(results[..])
  {
    hide Rev, PassShift, RowDigests, TreeRow, PassOf, PassesDone, Shifted, Accumulated, Region;
    ghost var was := results[..];
    var mulVal := GENERATOR;
    BeforePasses(v, k, rateBits, spec, was);
    ok := true;
    for i: nat := 0 to Pow2(rateBits)
      invariant ok && (i == 0 || TransformsAllowed(k, num)) && (!TransformsAllowed(k, num) ==> results[..] == was)
      invariant num > 0 ==> mulVal == PassFactor(k, rateBits, i)
      invariant values[..] == pre + Shifted(v, k, Accumulated(k, rateBits, i)) + post
      invariant PassesDone(spec, was, results[..], PassOf(Pow2(k), rateBits), i)
    {
      ok := PartialPass(perm, order, k, rateBits, i, ldes, ldesOffset, numLdes, values, valuesOffset, base, num, mulVal,
                        results, stored, pre, v, post, spec, was);
      if !ok {
        return;
      }
      NextAccumulated(k, rateBits, i);
      if num > 0 {
        mulVal := Root(k + rateBits);
      }
    }
    NextAccumulated(k, rateBits, Pow2(rateBits) - 1);
    AllPassesDone(spec, was, results[..], Pow2(k), rateBits);
    UnscaleIfAny(order, k, rateBits, values, base, num, pre, v, post);
  }

  /**
   * `build_merkle_tree_w_partial_ldes`, with `numLdes` of `numNtts` columns stored: what is stored stays as it is,
   * the other columns end up as they were, and the tree is the one over the rows of stored and computed values.
   * The transform of the other columns, if there are any, asserts that they have at least two coefficients.
   */
  method BuildPartial(perm: Permutation, hash: NodeHash, order: nat, k: nat, rateBits: nat, ldes: array<Fp>,
                      ldesOffset: nat, numLdes: nat, values: array<Fp>, valuesOffset: nat, numNtts: nat,
                      results: array<Digest>, layersCount: nat, ghost stored: seq<Fp>, ghost pre: seq<Fp>,
                      ghost v: seq<Fp>, ghost post: seq<Fp>, ghost spec: seq<Digest>)
    returns (ok: bool)
    requires ldes != values && k <= order <= 32 && 1 <= order && k + rateBits <= 32 && 1 <= layersCount
    requires numLdes <= numNtts && |v| == (numNtts - numLdes) * Pow2(k) && values[..] == pre + v + post
    requires |pre| == valuesOffset + Product(numLdes, Pow2(k))
    requires Region(ldes[..], ldesOffset, stored, Pow2(k + rateBits), numLdes)
    requires results.Length == 2 * Pow2(k + rateBits)
    requires spec == RowDigests(perm, TreeRow(stored, v, k, rateBits), Pow2(k + rateBits))
    modifies values, results
    ensures ok <==> (k >= 1 || numLdes == numNtts) && Pow2(layersCount - 1) <= Pow2(k + rateBits)
    ensures TransformsAllowed(k, numNtts - numLdes) ==> values[..] == old(values[..])
    ensures ok ==> IsTree(hash, spec, layersCount, old(results[..]), results[..])
  {
    ghost var was := results[..];
    var base := valuesOffset + Product(numLdes, Pow2(k));
    ok := PartialLeaves(perm, order, k, rateBits, ldes, ldesOffset, numLdes, values, valuesOffset, base,
                        numNtts - numLdes,
                        results, stored, pre, v, post, spec);
    if !ok {
      return;
    }
    ok := BuildTree(hash, results, k + rateBits, layersCount, spec, was);
  }

  // ---- The same tree as the in-place build ----

  /** The stored columns of the polynomials `c`: the low-degree extension of each. */
  function Extended(order: nat, c: seq<Fp>, k: nat, rateBits: nat): seq<Fp>
    requires 1 <= order <= 32
  {
    if |c| < Pow2(k) then []
    else Extension(order, c[..Pow2(k)], k, rateBits) + Extended(order, c[Pow2(k)..], k, rateBits)
  }

  lemma {:induction false} ExtendedLength(order: nat, c: seq<Fp>, k: nat, rateBits: nat, num: nat)
    requires k + rateBits <= order <= 32 && 1 <= order && |c| == num * Pow2(k)
    ensures |Extended(order, c, k, rateBits)| == num * Pow2(k + rateBits)
    decreases num
  {
    if num > 0 {
      Peel(num, Pow2(k));
      Peel(num, Pow2(k + rateBits));
      Pow2Monotone(k, k + rateBits);
      ExtendedLength(order, c[Pow2(k)..], k, rateBits, num - 1);
    }
  }

  lemma {:induction false} StoredIsEvaluation(order: nat, c: seq<Fp>, k: nat, rateBits: nat, p: nat)
    requires k + rateBits <= order <= 32 && 1 <= order && p < Pow2(k + rateBits)
    ensures LeafValues(Extended(order, c, k, rateBits), Pow2(k + rateBits), p, 1)
         == EvalRow(c, Pow2(k), ExtensionPoint(k, rateBits, p))
    decreases |c|
  {
    if |c| >= Pow2(k) {
      ExtensionIsEvaluation(order, c[..Pow2(k)], k, rateBits, p);
      StoredIsEvaluation(order, c[Pow2(k)..], k, rateBits, p);
      LeafCons(Extension(order, c[..Pow2(k)], k, rateBits), Extended(order, c[Pow2(k)..], k, rateBits),
               Pow2(k + rateBits), p);
    }
  }

  lemma {:induction false} EvalRowConcat(a: seq<Fp>, b: seq<Fp>, n: nat, num: nat, x: Fp)
    requires n > 0 && |a| == num * n
    ensures EvalRow(a + b, n, x) == EvalRow(a, n, x) + EvalRow(b, n, x)
    decreases num
  {
    hide Eval;
    if num == 0 {
      assert a + b == b;
    } else {
      Peel(num, n);
      EvalRowConcat(a[n..], b, n, num - 1, x);
      assert (a + b)[..n] == a[..n] && (a + b)[n..] == a[n..] + b;
    }
  }

  lemma EvalConstant(c: Poly, n: nat, x: Fp)
    requires |c| == n == 1
    ensures Eval(c, x) == c[0]
  {
    assert c[1..] == [];
    ZeroLaws(x);
  }

  /** Constant polynomials have the same row at every point. */
  lemma {:induction false} ConstantRow(c: seq<Fp>, n: nat, x: Fp, y: Fp)
    requires n == 1
    ensures EvalRow(c, n, x) == EvalRow(c, n, y)
    decreases |c|
  {
    if |c| >= n {
      ConstantRow(c[n..], n, x, y);
      EvalConstant(c[..n], n, x);
      EvalConstant(c[..n], n, y);
    }
  }

  lemma TreeRowAt(stored: seq<Fp>, v: seq<Fp>, k: nat, rateBits: nat, p: nat, x: Fp)
    requires k + rateBits <= 32 && p < Pow2(k + rateBits) && x == LeafPoint(k, rateBits, p)
    ensures TreeRow(stored, v, k, rateBits)(p) == LeafValues(stored, Pow2(k + rateBits), p, 1) + EvalRow(v, Pow2(k), x)
  {
    RowOfLeaf(v, k, rateBits, p, x);
  }

  /** However the columns are split into stored extensions and polynomials, the rows are those of the in-place build. */
  lemma SplitDoesNotMatter(order: nat, c: seq<Fp>, numLdes: nat, v: seq<Fp>, k: nat, rateBits: nat, p: nat)
    requires k + rateBits <= order <= 32 && 1 <= order && (k == 0 || 5 <= k) && p < Pow2(k + rateBits) &&
             |c| == numLdes * Pow2(k)
    ensures TreeRow(Extended(order, c, k, rateBits), v, k, rateBits)(p) == ExtensionRow(c + v, k, rateBits)(p)
  {
    var x := LeafPoint(k, rateBits, p);
    StoredIsEvaluation(order, c, k, rateBits, p);
    if k == 0 {
      ConstantRow(c, Pow2(k), x, ExtensionPoint(k, rateBits, p));
    }
    EvalRowConcat(c, v, Pow2(k), numLdes, x);
    TreeRowAt(Extended(order, c, k, rateBits), v, k, rateBits, p, x);
    RowOfLeaf(c + v, k, rateBits, p, x);
  }

  /** The polynomial X of 2^k coefficients. */
  function PolynomialX(k: nat): (c: Poly)
    requires k > 0
    ensures |c| == Pow2(k)
  {
    [0, 1] + seq(Pow2(k) - 2, _ => 0)
  }

  lemma OneColumn(c: Poly, n: nat, x: Fp)
    requires |c| == n > 0
    ensures EvalRow(c, n, x) == [Eval(c, x)]
  {
    hide Eval;
    assert c[..n] == c && c[n..] == [];
  }

  lemma EvalOfX(zeros: Poly, x: Fp)
    requires forall j :: 0 <= j < |zeros| ==> zeros[j] == 0
    ensures Eval([0, 1] + zeros, x) == x
  {
    hide Mul;
    var c := [0, 1] + zeros;
    EvalZeros(zeros, x);
    assert c[1..] == [1] + zeros && c[1..][1..] == zeros;
    ZeroLaws(x);
    MulOne(x);
    assert Eval(c[1..], x) == 1;
  }

  lemma RowOfX(k: nat, x: Fp)
    requires k > 0
    ensures EvalRow(PolynomialX(k), Pow2(k), x) == [x]
  {
    OneColumn(PolynomialX(k), Pow2(k), x);
    EvalOfX(seq(Pow2(k) - 2, _ => 0), x);
  }

  lemma StoredRowOfX(order: nat, k: nat, rateBits: nat, p: nat, none: seq<Fp>)
    requires k + rateBits <= order <= 32 && 1 <= k && p < Pow2(k + rateBits) && none == []
    ensures TreeRow(Extended(order, PolynomialX(k), k, rateBits), none, k, rateBits)(p)
            == [ExtensionPoint(k, rateBits, p)]
  {
    var c, y := PolynomialX(k), ExtensionPoint(k, rateBits, p);
    StoredIsEvaluation(order, c, k, rateBits, p);
    TreeRowAt(Extended(order, c, k, rateBits), none, k, rateBits, p, LeafPoint(k, rateBits, p));
    RowOfX(k, y);
  }

  lemma ComputedRowOfX(k: nat, rateBits: nat, p: nat)
    requires k + rateBits <= 32 && 1 <= k
    ensures ExtensionRow(PolynomialX(k), k, rateBits)(p) == [LeafPoint(k, rateBits, p)]
  {
    var x := LeafPoint(k, rateBits, p);
    RowOfLeaf(PolynomialX(k), k, rateBits, p, x);
    RowOfX(k, x);
  }

  /** Between 2 and 16 coefficients it does matter: storing the polynomial X beforehand changes every row. */
  lemma SplitMattersForSmallDegrees(order: nat, k: nat, rateBits: nat, p: nat)
    requires k + rateBits <= order <= 32 && 1 <= k < 5 && p < Pow2(k + rateBits)
    ensures TreeRow(Extended(order, PolynomialX(k), k, rateBits), [], k, rateBits)(p)
         != ExtensionRow(PolynomialX(k), k, rateBits)(p)
  {
    StoredRowOfX(order, k, rateBits, p, []);
    ComputedRowOfX(k, rateBits, p);
    CosetExactlyFromThirtyTwo(k, rateBits, p);
  }

  /** If `c` consists of `numLdes` columns, every row with those stored is the row of the in-place build of all. */
  ghost predicate SameRows(order: nat, c: seq<Fp>, numLdes: nat, v: seq<Fp>, k: nat, rateBits: nat)
    requires k + rateBits <= order <= 32 && 1 <= order
  {
    |c| == numLdes * Pow2(k) ==> forall p: nat :: p < Pow2(k + rateBits) ==> SameRow(order, c, v, k, rateBits, p)
  }

  predicate SameRow(order: nat, c: seq<Fp>, v: seq<Fp>, k: nat, rateBits: nat, p: nat)
    requires k + rateBits <= order <= 32 && 1 <= order
  {
    TreeRow(Extended(order, c, k, rateBits), v, k, rateBits)(p) == ExtensionRow(c + v, k, rateBits)(p)
  }

  /** Storing columns beforehand never changes a row exactly when there is one coefficient, or at least 32. */
  lemma SplitMattersExactly(order: nat, k: nat, rateBits: nat)
    requires k + rateBits <= order <= 32 && 1 <= order
    ensures (forall c: seq<Fp>, numLdes: nat, v: seq<Fp> :: SameRows(order, c, numLdes, v, k, rateBits)) <==>
            k == 0 || 5 <= k
  {
    hide TreeRow, ExtensionRow, Extended, PolynomialX;
    if k == 0 || 5 <= k {
      forall c: seq<Fp>, numLdes: nat, v: seq<Fp>
        ensures SameRows(order, c, numLdes, v, k, rateBits)
      {
        if |c| == numLdes * Pow2(k) {
          forall p: nat | p < Pow2(k + rateBits)
            ensures SameRow(order, c, v, k, rateBits, p)
          {
            SplitDoesNotMatter(order, c, numLdes, v, k, rateBits, p);
          }
        }
      }
    } else {
      var p: nat := 0;
      SplitMattersForSmallDegrees(order, k, rateBits, p);
      assert PolynomialX(k) + [] == PolynomialX(k);
      assert |PolynomialX(k)| == 1 * Pow2(k) && !SameRow(order, PolynomialX(k), [], k, rateBits, p);
      assert !SameRows(order, PolynomialX(k), 1, [], k, rateBits);
    }
  }

  lemma SameLeaves(perm: Permutation, order: nat, c: seq<Fp>, numLdes: nat, v: seq<Fp>, k: nat, rateBits: nat)
    requires k + rateBits <= order <= 32 && 1 <= order && (k == 0 || 5 <= k) && |c| == numLdes * Pow2(k)
    ensures RowDigests(perm, TreeRow(Extended(order, c, k, rateBits), v, k, rateBits), Pow2(k + rateBits))
         == RowDigests(perm, ExtensionRow(c + v, k, rateBits), Pow2(k + rateBits))
  {
    forall p: nat | p < Pow2(k + rateBits)
      ensures TreeRow(Extended(order, c, k, rateBits), v, k, rateBits)(p) == ExtensionRow(c + v, k, rateBits)(p)
    {
      SplitDoesNotMatter(order, c, numLdes, v, k, rateBits, p);
    }
  }
}
