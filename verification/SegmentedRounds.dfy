// The rounds of the segmented build refine a single pass over all columns.
module SegmentedRounds {
  import opened Field
  import opened Bits
  import opened Ntt
  import opened Columns
  import opened Leaves
  import opened SegmentedKernel
  import opened SegmentedTree

  // ---- Appending columns ----

  lemma {:induction false} EachConcat(f: Poly -> Poly, n: nat, a: seq<Fp>, b: seq<Fp>, num: nat)
    requires n > 0 && |a| == num * n
    ensures EachColumn(f, n, a + b) == EachColumn(f, n, a) + EachColumn(f, n, b)
    decreases num
  {
    if num == 0 {
      assert a + b == b;
    } else {
      Peel(num, n);
      EachConcat(f, n, a[n..], b, num - 1);
      assert (a + b)[..n] == a[..n] && (a + b)[n..] == a[n..] + b;
    }
  }

  lemma {:induction false} LeafValuesConcat(a: seq<Fp>, b: seq<Fp>, stride: nat, at: nat, rows: nat, num: nat)
    requires stride > 0 && at + rows <= stride && |a| == num * stride
    ensures LeafValues(a + b, stride, at, rows) == LeafValues(a, stride, at, rows) + LeafValues(b, stride, at, rows)
    decreases num
  {
    if num == 0 {
      assert a + b == b;
    } else {
      Peel(num, stride);
      LeafValuesConcat(a[stride..], b, stride, at, rows, num - 1);
      assert (a + b)[at..at + rows] == a[at..at + rows] && (a + b)[stride..] == a[stride..] + b;
    }
  }

  lemma SegmentsConcat(order: nat, a: seq<Fp>, b: seq<Fp>, k: nat, rateBits: nat, num: nat)
    requires 1 <= order <= 32 && Pow2(k) <= Pow2(k + rateBits) && |a| == num * Pow2(k)
    ensures SegmentColumns(order, a + b, k, rateBits)
            == SegmentColumns(order, a, k, rateBits) + SegmentColumns(order, b, k, rateBits)
  {
    var n, size := Pow2(k), Pow2(k + rateBits);
    PaddedConcat(a, b, n, k, size, num);
    PaddedLength(a, n, k, size, num);
    EachConcat(ForwardUpTo(order, k + rateBits, k + rateBits), size, Padded(a, n, k, size), Padded(b, n, k, size), num);
  }

  lemma {:induction false} RateMultiple(eights: nat, rows: nat)
    ensures Multiple((RATE * eights) * rows, RATE)
    decreases eights
  {
    if eights > 0 {
      RateMultiple(eights - 1, rows);
      RateTimes(rows);
      MultipleSum((RATE * (eights - 1)) * rows, RATE * rows, RATE);
    }
  }

  lemma {:induction false} RateTimes(rows: nat)
    ensures Multiple(RATE * rows, RATE)
  {
    if rows > 0 {
      RateTimes(rows - 1);
      assert RATE * rows - RATE == RATE * (rows - 1);
    }
  }

  lemma EndingConcat(perm: Permutation, a: seq<Fp>, b: seq<Fp>, count: nat, rows: nat, init: State, t: nat, eights: nat)
    requires t < count && rows > 0 && |a| == (RATE * eights) * Product(count, rows)
    ensures Ending(perm, a + b, count, rows, true, init, t)
         == Ending(perm, b, count, rows, true, Ending(perm, a, count, rows, true, init, t), t)
  {
    ThreadFits(t, count, rows);
    var stride, at := Product(count, rows), Product(t, rows);
    LeafValuesConcat(a, b, stride, at, rows, RATE * eights);
    LeafValuesLength(a, stride, at, rows, RATE * eights);
    RateMultiple(eights, rows);
    AbsorbRowSplit(perm, true, init, LeafValues(a, stride, at, rows), LeafValues(b, stride, at, rows));
  }

  // ---- Leaves of the polynomials in `v` ----

  /** The sponge state of leaf t after all columns of `v`. */
  function LeafState(perm: Permutation, order: nat, v: seq<Fp>, k: nat, rateBits: nat, rows: nat, count: nat,
                     hash: bool, t: nat): State
    requires 1 <= order <= 32 && Pow2(k) <= Pow2(k + rateBits)
  {
    Ending(perm, SegmentColumns(order, v, k, rateBits), count, rows, hash, ZERO_STATE, t)
  }

  lemma LeafStateConcat(perm: Permutation, order: nat, a: seq<Fp>, b: seq<Fp>, k: nat, rateBits: nat, rows: nat,
                        count: nat, t: nat, eights: nat)
    requires 1 <= order <= 32 && Pow2(k) <= Pow2(k + rateBits) == Product(count, rows)
    requires t < count && rows > 0 && |a| == (RATE * eights) * Pow2(k)
    ensures LeafState(perm, order, a + b, k, rateBits, rows, count, true, t)
         == Ending(perm, SegmentColumns(order, b, k, rateBits), count, rows, true,
                   LeafState(perm, order, a, k, rateBits, rows, count, true, t), t)
  {
    SegmentsConcat(order, a, b, k, rateBits, RATE * eights);
    SegmentColumnsLength(order, a, k, rateBits, RATE * eights);
    EndingConcat(perm, SegmentColumns(order, a, k, rateBits), SegmentColumns(order, b, k, rateBits), count, rows,
                 ZERO_STATE, t, eights);
  }

  function LeafStates(perm: Permutation, order: nat, v: seq<Fp>, k: nat, rateBits: nat, rows: nat, count: nat,
                      hash: bool): nat -> State
    requires 1 <= order <= 32 && Pow2(k) <= Pow2(k + rateBits)
  {
    (t: nat) => LeafState(perm, order, v, k, rateBits, rows, count, hash, t)
  }

  /** Every leaf is left with its state, or with the digest of its state. */
  ghost predicate AllLeft(now: seq<Digest>, count: nat, store: bool, state: nat -> State)
    requires 3 * count <= |now|
  {
    forall t: nat :: t < count ==> LeftBehind(now, count, t, store, state(t))
  }

  // ---- One round ----

  lemma RoundState(perm: Permutation, order: nat, a: seq<Fp>, b: seq<Fp>, k: nat, rateBits: nat, rows: nat, count: nat,
                   load: bool, hash: bool, was: seq<Digest>, t: nat, eights: nat)
    requires 1 <= order <= 32 && Pow2(k) <= Pow2(k + rateBits) == Product(count, rows) && rows > 0 && 3 * count <= |was|
    requires t < count && |a| == (RATE * eights) * Pow2(k) && (load ==> hash)
    requires if load then AllLeft(was, count, true, LeafStates(perm, order, a, k, rateBits, rows, count, true))
             else a == []
    ensures Ending(perm, SegmentColumns(order, b, k, rateBits), count, rows, hash, InitialState(was, count, t, load), t)
         == LeafStates(perm, order, a + b, k, rateBits, rows, count, hash)(t)
  {
    if load {
      assert LeftBehind(was, count, t, true, LeafStates(perm, order, a, k, rateBits, rows, count, true)(t));
      LeafStateConcat(perm, order, a, b, k, rateBits, rows, count, t, eights);
    } else {
      assert a + b == b;
    }
  }

  lemma RoundLeaves(perm: Permutation, order: nat, a: seq<Fp>, b: seq<Fp>, k: nat, rateBits: nat, rows: nat, count: nat,
                  cols: nat, load: bool, store: bool, was: seq<Digest>, now: seq<Digest>, eights: nat)
    requires 1 <= order <= 32 && Pow2(k) <= Pow2(k + rateBits) == Product(count, rows) && rows > 0 &&
             3 * count <= |was| == |now|
    requires |a| == (RATE * eights) * Pow2(k)
    requires if load then AllLeft(was, count, true, LeafStates(perm, order, a, k, rateBits, rows, count, true))
             else a == []
    requires ThreadsDone(Endings(perm, SegmentColumns(order, b, k, rateBits), count, rows, Hashes(cols, load), load,
                                 was),
                         was, now, store, count)
    ensures AllLeft(now, count, store, LeafStates(perm, order, a + b, k, rateBits, rows, count, Hashes(cols, load)))
  {
    var target := Endings(perm, SegmentColumns(order, b, k, rateBits), count, rows, Hashes(cols, load), load, was);
    forall t: nat | t < count
      ensures LeftBehind(now, count, t, store,
                         LeafStates(perm, order, a + b, k, rateBits, rows, count, Hashes(cols, load))(t))
    {
      RoundState(perm, order, a, b, k, rateBits, rows, count, load, Hashes(cols, load), was, t, eights);
      assert LeftBehind(now, count, t, store, target[t]);
    }
  }

  /** One round: extend `cols` more columns into the buffer and continue the sponges with them. */
  method SegmentRound(perm: Permutation, order: nat, k: nat, rateBits: nat, values: array<Fp>, offset: nat, cols: nat,
                      buffer: array<Fp>, rows: nat, count: nat, results: array<Digest>, load: bool, store: bool,
                      ghost a: seq<Fp>, ghost b: seq<Fp>, ghost eights: nat) returns (ok: bool)
    requires 1 <= order <= 32 && Pow2(k) <= Pow2(k + rateBits) == Product(count, rows) && rows > 0 && values != buffer
    requires LaunchedThreads(count) == count && results.Length == 3 * count
    requires |a| == (RATE * eights) * Pow2(k)
    requires if load then AllLeft(results[..], count, true, LeafStates(perm, order, a, k, rateBits, rows, count, true))
             else a == []
    requires |b| == cols * Pow2(k) && offset + |b| <= values.Length && b == values[offset..offset + |b|]
    requires cols * Pow2(k + rateBits) <= buffer.Length
    modifies buffer, results
    ensures ok <==> k + rateBits >= 1 && (!store || (rows * cols) % RATE == 0)
    ensures !ok ==> results[..] == old(results[..])
    ensures ok ==>
            AllLeft(results[..], count, store,
                    LeafStates(perm, order, a + b, k, rateBits, rows, count, Hashes(cols, load)))
  {
    ghost var was := results[..];
    ok := ExtendSegment(order, k, rateBits, values, offset, cols, buffer, b);
    if !ok {
      return;
    }
    ok := LaunchLeaves(perm, buffer, cols, count, rows, load, store, results, SegmentColumns(order, b, k, rateBits));
    if ok {
      RoundLeaves(perm, order, a, b, k, rateBits, rows, count, cols, load, store, was, results[..], eights);
    }
  }
}
