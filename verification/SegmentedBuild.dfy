// The segmented build: as many rounds as the buffer requires, and the tree on top.
module SegmentedBuild {
  import opened Field
  import opened Bits
  import opened Leaves
  import opened MerkleNodes
  import opened InPlaceTree
  import opened SegmentedKernel
  import opened SegmentedRounds

  // ---- The plan of the rounds ----

  function TotalRounds(num: nat, per: nat): nat
    requires per > 0
  {
    num / per + if num % per != 0 then 1 else 0
  }

  function RoundColumns(num: nat, per: nat, i: nat): nat
    requires per > 0 && i < TotalRounds(num, per)
  {
    if i + 1 < TotalRounds(num, per) then per else if i * per <= num then num - i * per else 0
  }

  /** Every round has columns to work on, at most `per`, and the last one ends exactly at the last column. */
  lemma RoundPlan(num: nat, per: nat, i: nat)
    requires per > 0 && i < TotalRounds(num, per)
    ensures 0 < RoundColumns(num, per, i) <= per
    ensures i * per + RoundColumns(num, per, i) <= num
    ensures i + 1 == TotalRounds(num, per) ==> i * per + RoundColumns(num, per, i) == num
    ensures i + 1 < TotalRounds(num, per) ==> i * per + RoundColumns(num, per, i) == (i + 1) * per < num
  {
    var q, r := num / per, num % per;
    assert num == q * per + r;
    MultipleAtLeast(q - i, per);
    assert (q - i) * per == q * per - i * per;
    if i + 1 < TotalRounds(num, per) {
      MultipleAtLeast(q - i - 1, per);
      assert (q - i - 1) * per == (q - i) * per - per;
      assert (i + 1) * per == i * per + per;
    }
  }

  /** The rounds partition the columns: every column is hashed in exactly one round. */
  lemma RoundsPartition(num: nat, per: nat, col: nat, i: nat)
    requires per > 0 && i < TotalRounds(num, per) && col < num
    ensures col / per < TotalRounds(num, per)
    ensures i * per <= col < i * per + RoundColumns(num, per, i) <==> i == col / per
  {
    var last := TotalRounds(num, per) - 1;
    RoundPlan(num, per, last);
    assert (last + 1) * per == last * per + per;
    QuotientBelow(col, per, last + 1);
    RoundPlan(num, per, i);
    QuotientRange(col, per, i);
  }

  // ---- The rounds ----

  /** Sizes of a build: 2^k coefficients, extended by 2^rateBits, hashed `rows` values of a column at a time. */
  ghost predicate Sizes(order: nat, k: nat, rateBits: nat, rows: nat, count: nat)
  {
    1 <= order <= 32 && Pow2(k) <= Pow2(k + rateBits) == Product(count, rows) && rows > 0 &&
      LaunchedThreads(count) == count
  }

  /** Powers of two are such sizes, whatever the number of rows per hash. */
  lemma SizesOfPowers(order: nat, k: nat, rateBits: nat, logRows: nat)
    requires 1 <= order <= 32 && logRows <= k + rateBits
    ensures Sizes(order, k, rateBits, Pow2(logRows), Pow2(k + rateBits - logRows))
  {
    Pow2Monotone(k, k + rateBits);
    Pow2Add(k + rateBits - logRows, logRows);
    NoSuperfluousThreads(k + rateBits - logRows);
  }

  /** The leaves after `i` of `total` rounds, when the columns `a` of `v` have been absorbed. */
  ghost predicate LeavesAfter(perm: Permutation, order: nat, k: nat, rateBits: nat, rows: nat, count: nat, num: nat,
                              v: seq<Fp>, a: seq<Fp>, was: seq<Digest>, now: seq<Digest>, i: nat, total: nat)
    requires Sizes(order, k, rateBits, rows, count) && |was| == |now| == 3 * count
  {
    if i == 0 then now == was && a == []
    else if i < total then AllLeft(now, count, true, LeafStates(perm, order, a, k, rateBits, rows, count, true))
    else AllLeft(now, count, false, LeafStates(perm, order, v, k, rateBits, rows, count, num > CAPACITY))
  }

  /** The part of `v` absorbed before round i. */
  ghost predicate Prefix(v: seq<Fp>, a: seq<Fp>, rest: seq<Fp>, n: nat, num: nat, per: nat, i: nat)
    requires per > 0
  {
    && v == a + rest && |v| == num * n
    && (i < TotalRounds(num, per) ==> |a| == Product(i * per, n))
    && (i >= TotalRounds(num, per) ==> rest == [])
  }

  /** The columns of the next round. */
  lemma NextPrefix(v: seq<Fp>, a: seq<Fp>, rest: seq<Fp>, n: nat, num: nat, per: nat, i: nat)
    returns (b: seq<Fp>, rest': seq<Fp>)
    requires per > 0 && i < TotalRounds(num, per) && Prefix(v, a, rest, n, num, per, i)
    ensures rest == b + rest' && |b| == RoundColumns(num, per, i) * n && Prefix(v, a + b, rest', n, num, per, i + 1)
    ensures i + 1 == TotalRounds(num, per) ==> a + b == v
  {
    RoundPlan(num, per, i);
    var cols, done := RoundColumns(num, per, i), i * per;
    assert num * n == done * n + cols * n + (num - done - cols) * n;
    b, rest' := rest[..cols * n], rest[cols * n..];
    if i + 1 < TotalRounds(num, per) {
      assert (done + cols) * n == done * n + cols * n;
    } else {
      assert num - done - cols == 0;
    }
  }

  lemma InputSlice(values: seq<Fp>, start: nat, v: seq<Fp>, a: seq<Fp>, b: seq<Fp>, rest: seq<Fp>)
    requires start + |v| <= |values| && v == values[start..start + |v|] && v == a + b + rest
    ensures start + |a| + |b| <= |values| && b == values[start + |a|..start + |a| + |b|]
  {
    forall p | 0 <= p < |b|
      ensures b[p] == values[start + |a| + p]
    {
      assert v[|a| + p] == b[p];
    }
  }

  lemma FitsBuffer(cols: nat, per: nat, size: nat, room: nat)
    requires cols <= per && per * size <= room
    ensures cols * size <= room
  {
    assert (per - cols) * size == per * size - cols * size;
  }

  lemma WholeRounds(i: nat, eights: nat, rows: nat)
    ensures i * (RATE * eights) == RATE * (i * eights)
    ensures (rows * (RATE * eights)) % RATE == 0
  {
    assert rows * (RATE * eights) == RATE * (rows * eights);
  }

  lemma LeavesNext(perm: Permutation, order: nat, k: nat, rateBits: nat, rows: nat, count: nat, num: nat, v: seq<Fp>,
                   a: seq<Fp>, was: seq<Digest>, next: seq<Digest>, per: nat, i: nat, cols: nat)
    requires Sizes(order, k, rateBits, rows, count) && |was| == |next| == 3 * count
    requires per >= RATE && i < TotalRounds(num, per) && cols == RoundColumns(num, per, i)
    requires i + 1 == TotalRounds(num, per) ==> a == v
    requires AllLeft(next, count, i + 1 < TotalRounds(num, per),
                     LeafStates(perm, order, a, k, rateBits, rows, count, Hashes(cols, i > 0)))
    ensures LeavesAfter(perm, order, k, rateBits, rows, count, num, v, a, was, next, i + 1, TotalRounds(num, per))
  {
    RoundPlan(num, per, i);
    if i > 0 {
      RoundPlan(num, per, 0);
    }
  }

  /** Round i of the build. */
  method NextRound(perm: Permutation, order: nat, k: nat, rateBits: nat, values: array<Fp>, inputsOffset: nat, num: nat,
                   buffer: array<Fp>, rows: nat, count: nat, results: array<Digest>, per: nat, total: nat, i: nat,
                   ghost v: seq<Fp>, ghost a: seq<Fp>, ghost rest: seq<Fp>, ghost was: seq<Digest>, ghost eights: nat)
    returns (ok: bool, ghost a': seq<Fp>, ghost rest': seq<Fp>)
    requires Sizes(order, k, rateBits, rows, count) && values != buffer && results.Length == 3 * count == |was|
    requires inputsOffset + |v| <= values.Length && v == values[inputsOffset..inputsOffset + |v|]
    requires per == RATE * eights > 0 && per * Pow2(k + rateBits) <= buffer.Length && i < total == TotalRounds(num, per)
    requires Prefix(v, a, rest, Pow2(k), num, per, i)
    requires LeavesAfter(perm, order, k, rateBits, rows, count, num, v, a, was, results[..], i, total)
    modifies buffer, results
    ensures ok <==> k + rateBits >= 1
    ensures Prefix(v, a', rest', Pow2(k), num, per, i + 1)
    ensures !ok ==> results[..] == old(results[..])
    ensures ok ==> LeavesAfter(perm, order, k, rateBits, rows, count, num, v, a', was, results[..], i + 1, total)
  {
    var offset := inputsOffset + Product(i * per, Pow2(k));
    var cols := if i < total - 1 then per else num - per * i;
    ghost var b;
    b, rest' := NextPrefix(v, a, rest, Pow2(k), num, per, i);
    a' := a + b;
    RoundPlan(num, per, i);
    assert v == a + b + rest';
    InputSlice(values[..], inputsOffset, v, a, b, rest');
    FitsBuffer(cols, per, Pow2(k + rateBits), buffer.Length);
    WholeRounds(i, eights, rows);
    ok := SegmentRound(perm, order, k, rateBits, values, offset, cols, buffer, rows, count, results, i > 0,
                       i < total - 1, a, b, i * eights);
    if ok {
      LeavesNext(perm, order, k, rateBits, rows, count, num, v, a', was, results[..], per, i, cols);
    }
  }

  lemma BeforeRounds(v: seq<Fp>, n: nat, num: nat, per: nat)
    requires |v| == num * n && per > 0
    ensures Prefix(v, [], v, n, num, per, 0)
    ensures TotalRounds(num, per) == 0 <==> num == 0
  {
    assert v == [] + v && Product(0 * per, n) == 0;
    assert num == num / per * per + num % per;
  }

  /** The loop over all rounds. */
  method Rounds(perm: Permutation, order: nat, k: nat, rateBits: nat, values: array<Fp>, inputsOffset: nat, num: nat,
                buffer: array<Fp>, rows: nat, count: nat, results: array<Digest>, per: nat, total: nat,
                ghost v: seq<Fp>, ghost eights: nat) returns (ok: bool)
    requires Sizes(order, k, rateBits, rows, count) && values != buffer && results.Length == 3 * count
    requires |v| == num * Pow2(k) && inputsOffset + |v| <= values.Length &&
             v == values[inputsOffset..inputsOffset + |v|]
    requires per == RATE * eights > 0 && per * Pow2(k + rateBits) <= buffer.Length && total == TotalRounds(num, per)
    modifies buffer, results
    ensures ok <==> total == 0 || k + rateBits >= 1
    ensures ok && total > 0 ==>
              AllLeft(results[..], count, false, LeafStates(perm, order, v, k, rateBits, rows, count, num > CAPACITY))
    ensures total == 0 || !ok ==> results[..] == old(results[..])
  {
    ghost var was, a, rest := results[..], [], v;
    ok := true;
    BeforeRounds(v, Pow2(k), num, per);
    for i: nat := 0 to total
      invariant ok && (i == 0 || k + rateBits >= 1) && (k + rateBits == 0 ==> results[..] == was)
      invariant Prefix(v, a, rest, Pow2(k), num, per, i)
      invariant LeavesAfter(perm, order, k, rateBits, rows, count, num, v, a, was, results[..], i, total)
    {
      ok, a, rest := NextRound(perm, order, k, rateBits, values, inputsOffset, num, buffer, rows, count, results, per,
                               total, i,
                               v, a, rest, was, eights);
      if !ok {
        return;
      }
    }
  }

  lemma ColumnsPerRound(room: nat, size: nat, eights: nat)
    requires size > 0 && eights == room / size / RATE
    ensures (RATE * eights) * size <= room
    ensures eights > 0 <==> room >= RATE * size
  {
    var q := room / size;
    QuotientRange(room, size, q);
    FitsBuffer(RATE * eights, q, size, room);
    if eights > 0 {
      FitsBuffer(RATE, q, size, room);
    } else {
      ExceedsBuffer(RATE, q, size, room);
    }
  }

  lemma ExceedsBuffer(cols: nat, q: nat, size: nat, room: nat)
    requires room < q * size + size && q < cols
    ensures room < cols * size
  {
    MultipleAtLeast(cols - q, size);
    assert (cols - q) * size == cols * size - q * size;
  }

  /** The columns per round: as many as fit the buffer, in whole rounds of the sponge. */
  method RoundSize(room: nat, size: nat) returns (per: nat, ghost eights: nat)
    requires size > 0
    ensures per == RATE * eights && per * size <= room
    ensures per > 0 <==> room >= RATE * size
  {
    var columns := room / size;
    eights := columns / RATE;
    per := columns / RATE * RATE;
    ColumnsPerRound(room, size, eights);
  }

  /**
   * `build_merkle_tree_leaves_segmented`. It fails exactly when the buffer is too small for RATE extended columns
   * (the division by the columns per round) or a column is to be extended to a single value (the assertion of the
   * transform); otherwise no assertion fires and every leaf is left with the digest that one pass over all columns
   * gives. Without columns nothing is written.
   */
  method BuildLeavesSegmented(perm: Permutation, order: nat, k: nat, rateBits: nat, values: array<Fp>,
                              inputsOffset: nat, num: nat, buffer: array<Fp>, rows: nat, count: nat,
                              results: array<Digest>, ghost v: seq<Fp>) returns (ok: bool)
    requires Sizes(order, k, rateBits, rows, count) && values != buffer && results.Length == 3 * count
    requires |v| == num * Pow2(k) && inputsOffset + |v| <= values.Length &&
             v == values[inputsOffset..inputsOffset + |v|]
    modifies buffer, results
    ensures ok <==> buffer.Length >= RATE * Pow2(k + rateBits) && (num == 0 || k + rateBits >= 1)
    ensures ok && num > 0 ==>
              AllLeft(results[..], count, false, LeafStates(perm, order, v, k, rateBits, rows, count, num > CAPACITY))
    ensures num == 0 || !ok ==> results[..] == old(results[..])
  {
    hide LeafStates, AllLeft, Pow2, TotalRounds, Prefix;
    var per, eights := RoundSize(buffer.Length, Pow2(k + rateBits));
    if per == 0 {
      return false;
    }
    BeforeRounds(v, Pow2(k), num, per);
    var total := TotalRounds(num, per);
    ok := Rounds(perm, order, k, rateBits, values, inputsOffset, num, buffer, rows, count, results, per, total, v,
                 eights);
  }

  /** The digests of the leaves. */
  function LeafDigests(count: nat, state: nat -> State): (r: seq<Digest>)
    ensures |r| == count
  {
    seq<Digest>(count, t requires 0 <= t < count => LeafDigest(state(t)))
  }

  lemma DigestsLeft(now: seq<Digest>, count: nat, state: nat -> State) returns (rest: seq<Digest>)
    requires |now| == 3 * count && AllLeft(now, count, false, state)
    ensures now == [] + LeafDigests(count, state) + rest && |rest| == 2 * count
  {
    rest := now[count..];
    var leaves := LeafDigests(count, state);
    forall t: nat | t < count
      ensures now[t] == leaves[t]
    {
      assert LeftBehind(now, count, t, false, state(t));
    }
    assert now == now[..count] + rest && now[..count] == leaves;
  }

  /** `build_merkle_tree_segmented`: the nodes are written over the second third of the saved states. */
  method BuildSegmented(perm: Permutation, hash: NodeHash, order: nat, k: nat, rateBits: nat, values: array<Fp>,
                        inputsOffset: nat, num: nat, buffer: array<Fp>, rows: nat, bits: nat, results: array<Digest>,
                        layersCount: nat, ghost v: seq<Fp>)
    returns (ok: bool, ghost rest: seq<Digest>)
    requires Sizes(order, k, rateBits, rows, Pow2(bits)) && values != buffer && results.Length == 3 * Pow2(bits) &&
             layersCount > 0
    requires |v| == num * Pow2(k) && inputsOffset + |v| <= values.Length &&
             v == values[inputsOffset..inputsOffset + |v|]
    modifies buffer, results
    ensures ok <==> buffer.Length >= RATE * Pow2(k + rateBits) && (num == 0 || k + rateBits >= 1) &&
                    Pow2(layersCount - 1) <= Pow2(bits)
    ensures ok ==> Built(hash, results[..], [],
                         if num == 0 then old(results[..Pow2(bits)])
                         else LeafDigests(Pow2(bits),
                                          LeafStates(perm, order, v, k, rateBits, rows, Pow2(bits), num > CAPACITY)),
                         rest, layersCount - 1)
  {
    var count := Pow2(bits);
    rest := [];
    ok := BuildLeavesSegmented(perm, order, k, rateBits, values, inputsOffset, num, buffer, rows, count, results, v);
    if ok {
      ghost var state := LeafStates(perm, order, v, k, rateBits, rows, count, num > CAPACITY);
      ghost var leaves := results[..count];
      if num == 0 {
        rest := results[count..];
      } else {
        rest := DigestsLeft(results[..], count, state);
        leaves := LeafDigests(count, state);
      }
      assert results[..] == [] + leaves + rest;
      ok := BuildNodes(hash, results, 0, count, count, layersCount - 1, [], leaves, rest);
      TreeAssertions(bits, layersCount - 1);
    }
  }
}
