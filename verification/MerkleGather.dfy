// The kernel that gathers Merkle paths, cell by cell.
module MerkleGather {
  import opened Field
  import opened Bits
  import opened Layouts
  import opened Leaves
  import opened MerkleNodes
  import opened MerklePaths
  import opened StoredTree

  /**
   * Cell `col` of the sibling of leaf `index` at layer d, as the kernel addresses it: columns of a layer one after the
   * other.
   */
  function Source(bits: nat, d: nat, col: nat, index: nat): int
    requires d <= bits
  {
    CAPACITY * LayerOffset(bits, d) + Product(col, Pow2(bits - d)) + Sibling(Ancestor(index, d))
  }

  function Destination(n: nat, d: nat, col: nat, idx: nat): nat
  {
    Product(d, n * CAPACITY) + Product(n, col) + idx
  }

  lemma SourceInRange(bits: nat, d: nat, col: nat, index: nat)
    requires d < bits && col < CAPACITY && index < Pow2(bits)
    ensures 0 <= Source(bits, d, col, index) < CAPACITY * Pow2(bits + 1)
  {
    var m := Pow2(bits - d);
    AncestorFits(index, bits, d);
    SiblingFits(Ancestor(index, d), bits - d);
    Pow2Monotone(bits + 1 - d, bits + 1);
    TwicePower(bits - d);
    ColumnProduct(col, m);
    hide Pow2, Ancestor, Sibling, Product;
  }

  lemma TwicePower(e: nat)
    ensures Pow2(e + 1) == 2 * Pow2(e)
  {
  }

  lemma ColumnProduct(col: nat, m: nat)
    requires col < CAPACITY
    ensures Product(col, m) == ColumnStart(m, col)
  {
  }

  /** Cell p of the results, as a layer, a column and a position among the indexes. */
  lemma ThreadOfCell(p: nat, n: nat, layers: nat)
    requires p < n * layers * CAPACITY
    ensures n > 0 && p / n / CAPACITY < layers && Destination(n, p / n / CAPACITY, p / n % CAPACITY, p % n) == p
  {
    var block := p / n;
    assert n * layers * CAPACITY == (layers * CAPACITY) * n;
    QuotientBelow(p, n, layers * CAPACITY);
    QuotientBelow(block, CAPACITY, layers);
    assert p == block * n + p % n && block == block / CAPACITY * CAPACITY + block % CAPACITY;
    DestinationBlock(n, block / CAPACITY, block % CAPACITY, p % n);
  }

  lemma DestinationBlock(n: nat, d: nat, col: nat, idx: nat)
    ensures Destination(n, d, col, idx) == (d * CAPACITY + col) * n + idx
  {
    assert d * (n * CAPACITY) == (d * CAPACITY) * n;
  }

  lemma CellOfThread(n: nat, d: nat, col: nat, idx: nat, layers: nat)
    requires d < layers && col < CAPACITY && idx < n
    ensures Destination(n, d, col, idx) < n * layers * CAPACITY
    ensures Destination(n, d, col, idx) / n / CAPACITY == d
    ensures Destination(n, d, col, idx) / n % CAPACITY == col && Destination(n, d, col, idx) % n == idx
  {
    DestinationBlock(n, d, col, idx);
    DivModUnique(Destination(n, d, col, idx), n, d * CAPACITY + col, idx);
    DivModUnique(d * CAPACITY + col, CAPACITY, d, col);
    BlocksFit(n, d * CAPACITY + col, layers);
  }

  lemma BlocksFit(n: nat, block: nat, layers: nat)
    requires block < layers * CAPACITY
    ensures block * n + n <= n * layers * CAPACITY
  {
    MultipleAtLeast(layers * CAPACITY - block, n);
    assert (layers * CAPACITY - block) * n == (layers * CAPACITY) * n - block * n;
    assert (layers * CAPACITY) * n == n * layers * CAPACITY;
  }

  /** What thread p does. */
  ghost predicate CellGathered(values: seq<Fp>, bits: nat, indexes: seq<nat>, now: seq<Fp>, p: nat)
    requires p < |now| && |indexes| > 0 && p / |indexes| / CAPACITY <= bits
  {
    var n := |indexes|;
    var at := Source(bits, p / n / CAPACITY, p / n % CAPACITY, indexes[p % n]);
    0 <= at < |values| && now[p] == values[at]
  }

  /** The cells of the results, as the launch leaves them. */
  ghost predicate AllGathered(values: seq<Fp>, bits: nat, indexes: seq<nat>, results: seq<Fp>, layers: nat)
    requires layers <= bits
  {
    && |results| == |indexes| * layers * CAPACITY
    && forall p: nat :: p < |results| ==>
         |indexes| > 0 && p / |indexes| / CAPACITY < layers && CellGathered(values, bits, indexes, results, p)
  }

  /** All assertions of the launcher hold. */
  predicate GatherAllowed(cells: nat, n: nat, results: nat, layers: nat)
  {
    && cells % CAPACITY == 0 && PowerOfTwo(cells / CAPACITY) && TrailingZeros(cells / CAPACITY) != 0
    && layers < TrailingZeros(cells / CAPACITY) - 1 && n * layers * CAPACITY == results
  }

  lemma GatherAllowedExactly(cells: nat, n: nat, results: nat, layers: nat)
    ensures GatherAllowed(cells, n, results, layers)
       <==> cells % 4 == 0 && n * layers * 4 == results &&
            exists log: nat :: cells / 4 == Pow2(log) && layers + 1 < log
  {
    if cells % 4 == 0 {
      TreeSize(cells / 4, layers);
    }
  }

  lemma TreeSize(digests: nat, layers: nat)
    ensures (PowerOfTwo(digests) && TrailingZeros(digests) != 0 && layers < TrailingZeros(digests) - 1)
       <==> (exists log: nat :: digests == Pow2(log) && layers + 1 < log)
  {
    if log: nat :| digests == Pow2(log) && layers + 1 < log {
      Pow2IsPowerOfTwo(log);
    }
  }

  /** `gather_merkle_paths`: one thread per gathered cell; the result tells whether all assertions held. */
  method GatherPaths(indexes: array<nat>, values: array<Fp>, results: array<Fp>, layers: nat) returns (ok: bool)
    requires values != results
    requires forall i :: 0 <= i < indexes.Length ==> indexes[i] < values.Length / CAPACITY / 2
    modifies results
    ensures ok <==> values.Length % 4 == 0 && indexes.Length * layers * 4 == results.Length &&
                    exists log: nat :: values.Length / 4 == Pow2(log) && layers + 1 < log
    ensures ok <==> GatherAllowed(values.Length, indexes.Length, results.Length, layers)
    ensures ok ==>
            AllGathered(values[..], TrailingZeros(values.Length / CAPACITY) - 1, indexes[..], results[..], layers)
  {
    ok := GatherAllowed(values.Length, indexes.Length, results.Length, layers);
    GatherAllowedExactly(values.Length, indexes.Length, results.Length, layers);
    if !ok {
      return;
    }
    var n, bits := indexes.Length, TrailingZeros(values.Length / CAPACITY) - 1;
    for p: nat := 0 to results.Length
      invariant forall q: nat :: q < p ==>
                q / n / CAPACITY < layers && CellGathered(values[..], bits, indexes[..], results[..], q)
    {
      ThreadOfCell(p, n, layers);
      var d, col, index := p / n / CAPACITY, p / n % CAPACITY, indexes[p % n];
      SourceInRange(bits, d, col, index);
      results[p] := values[Source(bits, d, col, index)];
    }
  }

  // ---- What is gathered ----

  /** The kernel addresses the sibling as if every layer were stored column by column. */
  lemma SourceIsByColumn(bits: nat, d: nat, col: nat, index: nat)
    requires d < bits && col < CAPACITY && index < Pow2(bits)
    ensures Sibling(Ancestor(index, d)) < Pow2(bits - d)
    ensures Source(bits, d, col, index) == CellAddress(ByColumn, bits, d, col, Sibling(Ancestor(index, d)))
  {
    AncestorFits(index, bits, d);
    SiblingFits(Ancestor(index, d), bits - d);
    ColumnProduct(col, Pow2(bits - d));
  }

  /** The four gathered cells of layer d for the idx-th index. */
  function GatheredDigest(results: seq<Fp>, n: nat, d: nat, idx: nat): Digest
    requires forall col: nat :: col < CAPACITY ==> Destination(n, d, col, idx) < |results|
  {
    [results[Destination(n, d, 0, idx)], results[Destination(n, d, 1, idx)],
     results[Destination(n, d, 2, idx)], results[Destination(n, d, 3, idx)]]
  }

  lemma GatheredCell(values: seq<Fp>, tree: seq<Digest>, bits: nat, built: nat, indexes: seq<nat>, results: seq<Fp>,
                     layers: nat, d: nat, col: nat, idx: nat)
    requires d < layers < bits && d <= built && col < CAPACITY && idx < |indexes| && indexes[idx] < Pow2(bits)
    requires CellsHold(ByColumn, values, tree, bits, built) && AllGathered(values, bits, indexes, results, layers)
    ensures Destination(|indexes|, d, col, idx) < |results|
    ensures 0 <= LayerOffset(bits, d) + Sibling(Ancestor(indexes[idx], d)) < |tree|
    ensures results[Destination(|indexes|, d, col, idx)]
            == tree[LayerOffset(bits, d) + Sibling(Ancestor(indexes[idx], d))][col]
  {
    hide Source, CellAddress, Destination, LayerOffset;
    var h, p := Sibling(Ancestor(indexes[idx], d)), Destination(|indexes|, d, col, idx);
    SourceIsByColumn(bits, d, col, indexes[idx]);
    CellOfThread(|indexes|, d, col, idx, layers);
    assert CellGathered(values, bits, indexes, results, p);
    assert CellHeld(ByColumn, values, tree, bits, d, col, h);
  }

  /**
   * On a tree with layers stored column by column, the gathered digests are the path whose folding the tree confirms.
   */
  lemma GatheredIsOnPath(values: seq<Fp>, tree: seq<Digest>, bits: nat, built: nat, indexes: seq<nat>,
                         results: seq<Fp>, layers: nat, d: nat, idx: nat)
    requires d < layers < bits && d <= built && idx < |indexes| && indexes[idx] < Pow2(bits)
    requires CellsHold(ByColumn, values, tree, bits, built) && AllGathered(values, bits, indexes, results, layers)
    ensures forall col: nat :: col < CAPACITY ==> Destination(|indexes|, d, col, idx) < |results|
    ensures OnPath(tree, bits, indexes[idx], GatheredDigest(results, |indexes|, d, idx), d)
  {
    hide Destination, LayerOffset, CellsHold, AllGathered;
    var at := LayerOffset(bits, d) + Sibling(Ancestor(indexes[idx], d));
    var c: nat := 0;
    GatheredCell(values, tree, bits, built, indexes, results, layers, d, c, idx);
    forall col: nat | col < CAPACITY
      ensures Destination(|indexes|, d, col, idx) < |results|
      ensures results[Destination(|indexes|, d, col, idx)] == tree[at][col]
    {
      GatheredCell(values, tree, bits, built, indexes, results, layers, d, col, idx);
    }
    SameDigest(GatheredDigest(results, |indexes|, d, idx), tree[at]);
  }

  // ---- The siblings of a finished tree ----

  /** The digest that a kernel computed for node h of layer d. */
  function NodeDigest(hash: NodeHash, leaves: seq<Digest>, d: nat, h: nat): Digest
    requires h < |Level(Compress(hash.perm), Seen(hash.layout, leaves), d)| && h < |StoredLevel(hash, leaves, d)|
  {
    if d == 0 then leaves[h] else Level(Compress(hash.perm), Seen(hash.layout, leaves), d)[h]
  }

  lemma LevelSizes(hash: NodeHash, leaves: seq<Digest>, bits: nat, d: nat)
    requires d <= bits && |leaves| == Pow2(bits)
    ensures |Level(Compress(hash.perm), Seen(hash.layout, leaves), d)| == Pow2(bits - d)
    ensures |StoredLevel(hash, leaves, d)| == Pow2(bits - d)
  {
    LevelSeen(hash, leaves, d);
    LevelLength(Compress(hash.perm), Seen(hash.layout, leaves), bits, d);
  }

  /** What is gathered for the idx-th cell of the sibling is the cell of the digest computed for it. */
  ghost predicate SiblingGathered(hash: NodeHash, leaves: seq<Digest>, bits: nat, layers: nat, d: nat, index: nat)
  {
    && d < bits && index < Pow2(bits)
    && var h := Sibling(Ancestor(index, d));
       && h < |Level(Compress(hash.perm), Seen(hash.layout, leaves), d)| && h < |StoredLevel(hash, leaves, d)|
       && forall col: nat :: col < CAPACITY ==>
            && 0 <= Source(bits, d, col, index) < |Cells(StoredFlat(hash, leaves, layers))|
            && Cells(StoredFlat(hash, leaves, layers))[Source(bits, d, col, index)]
               == NodeDigest(hash, leaves, d, h)[col]
  }

  /** The gathered cell, in terms of the layer as it is stored. */
  lemma GatheredFromLevel(hash: NodeHash, leaves: seq<Digest>, bits: nat, layers: nat, d: nat, index: nat, col: nat)
    requires d <= layers <= bits && d < bits && |leaves| == Pow2(bits) && index < Pow2(bits) && col < CAPACITY
    ensures Sibling(Ancestor(index, d)) < Pow2(bits - d) == |StoredLevel(hash, leaves, d)|
    ensures 0 <= Source(bits, d, col, index) < |Cells(StoredFlat(hash, leaves, layers))|
    ensures Cells(StoredFlat(hash, leaves, layers))[Source(bits, d, col, index)]
         == Cell(StoredLevel(hash, leaves, d),
                 CellIndex(ByColumn, Pow2(bits - d), Sibling(Ancestor(index, d)), col))
  {
    hide Source, Cells, Cell, CellIndex, StoredFlat, StoredLevel;
    SourceIsByColumn(bits, d, col, index);
    LevelSizes(hash, leaves, bits, d);
    StoredLevelLies(hash, leaves, bits, layers, d);
    CellInLevel(StoredFlat(hash, leaves, layers), LayerOffset(bits, d), StoredLevel(hash, leaves, d),
                CellIndex(ByColumn, Pow2(bits - d), Sibling(Ancestor(index, d)), col));
  }

  /** Above the leaves, siblings stored column by column are gathered. */
  lemma ColumnsGathered(hash: NodeHash, leaves: seq<Digest>, bits: nat, layers: nat, d: nat, index: nat)
    requires 1 <= d <= layers <= bits && d < bits && |leaves| == Pow2(bits) && index < Pow2(bits)
    requires hash.layout == ByColumn
    ensures SiblingGathered(hash, leaves, bits, layers, d, index)
  {
    hide Source, Cells, Cell, CellIndex, StoredFlat, StoredLevel, Level, Seen, Sibling;
    LevelSizes(hash, leaves, bits, d);
    var h := Sibling(Ancestor(index, d));
    var c: nat := 0;
    GatheredFromLevel(hash, leaves, bits, layers, d, index, c);
    forall col: nat | col < CAPACITY
      ensures 0 <= Source(bits, d, col, index) < |Cells(StoredFlat(hash, leaves, layers))|
      ensures Cells(StoredFlat(hash, leaves, layers))[Source(bits, d, col, index)]
           == NodeDigest(hash, leaves, d, h)[col]
    {
      GatheredFromLevel(hash, leaves, bits, layers, d, index, col);
      CellOfSeen(ByColumn, StoredLevel(hash, leaves, d), h, col);
      LevelSeen(hash, leaves, d);
    }
  }

  // ---- Where the sibling is missed ----

  /** On a layer with adjacent cells the kernel reads the right cell exactly when this equation holds. */
  lemma AddressesAgree(m: nat, h: nat, col: nat)
    requires h < m && col < CAPACITY
    ensures CellIndex(ByColumn, m, h, col) == CellIndex(Adjacent, m, h, col)
       <==> Product(col, m - 1) == (CAPACITY - 1) * h
  {
    ColumnProduct(col, m - 1);
  }

  /** So on such a layer of two digests or more, no digest is ever gathered from its own four cells. */
  lemma SiblingNeverReadWhole(m: nat, h: nat) returns (col: nat)
    requires h < m && m >= 2
    ensures col < CAPACITY && CellIndex(ByColumn, m, h, col) != CellIndex(Adjacent, m, h, col)
  {
    col := if h == 0 then 1 else 0;
    AddressesAgree(m, h, col);
  }

  /** The identity, under which the parent of two digests is the first of them. */
  function Identity(): Permutation
  {
    (s: State) => s
  }

  /** Every digest twice. */
  function Doubled(v: seq<Digest>): (r: seq<Digest>)
    ensures |r| == 2 * |v|
  {
    seq<Digest>(2 * |v|, i requires 0 <= i < 2 * |v| => v[i / 2])
  }

  /** Leaves below which `v` lies at height d, under the identity. */
  function Spread(v: seq<Digest>, d: nat): seq<Digest>
    decreases d
  {
    if d == 0 then v else Spread(Doubled(v), d - 1)
  }

  lemma ParentsOfDoubled(v: seq<Digest>)
    ensures Parents(Compress(Identity()), Doubled(v)) == v
  {
    forall i: nat | i < |v|
      ensures Node(Identity(), v[i], v[i]) == v[i]
    {
      var w: seq<Fp> := v[i];
      assert (w + w + ZERO_STATE[RATE..])[..CAPACITY] == w;
    }
  }

  lemma {:induction false} LevelOfSpread(v: seq<Digest>, bits: nat, d: nat)
    requires d <= bits && |v| == Pow2(bits - d)
    ensures |Spread(v, d)| == Pow2(bits) && Level(Compress(Identity()), Spread(v, d), d) == v
    decreases d
  {
    hide Parents, Doubled;
    if d > 0 {
      LevelOfSpread(Doubled(v), bits, d - 1);
      ParentsOfDoubled(v);
    }
  }

  lemma {:induction false} StoredAdjacent(hash: NodeHash, leaves: seq<Digest>, d: nat)
    requires hash.layout == Adjacent
    ensures StoredLevel(hash, leaves, d) == Level(Compress(hash.perm), leaves, d) && Seen(hash.layout, leaves) == leaves
  {
    hide Parents;
    SeenAdjacent(leaves);
    if d > 0 {
      StoredAdjacent(hash, leaves, d - 1);
      SeenAdjacent(StoredLevel(hash, leaves, d - 1));
      SeenAdjacent(Parents(Compress(hash.perm), StoredLevel(hash, leaves, d - 1)));
    }
  }

  /**
   * Otherwise there are always leaves for whose tree a wrong cell is gathered, here with the identity as permutation.
   */
  lemma GatherMissesSibling(layout: Layout, bits: nat, layers: nat, d: nat, index: nat) returns (leaves: seq<Digest>)
    requires d <= layers <= bits && d < bits && index < Pow2(bits) && (d == 0 || layout == Adjacent)
    ensures |leaves| == Pow2(bits) && !SiblingGathered(NodeHash(Identity(), layout), leaves, bits, layers, d, index)
  {
    hide Source, Cells, Cell, CellIndex, StoredFlat, Spread, OneCell, Seen, Parents, Compress, Sibling, Ancestor;
    var hash, m, h := NodeHash(Identity(), layout), Pow2(bits - d), Sibling(Ancestor(index, d));
    AncestorFits(index, bits, d);
    SiblingFits(Ancestor(index, d), bits - d);
    TwoOrMore(bits - d);
    var col := SiblingNeverReadWhole(m, h);
    var level := OneCell(m, CellIndex(Adjacent, m, h, col));
    leaves := Spread(level, d);
    LevelOfSpread(level, bits, d);
    if d > 0 {
      StoredAdjacent(hash, leaves, d);
    } else {
      SpreadNothing(level);
    }
    assert StoredLevel(hash, leaves, d) == level;
    LevelSizes(hash, leaves, bits, d);
    GatheredFromLevel(hash, leaves, bits, layers, d, index, col);
    CellOfOneCell(m, CellIndex(Adjacent, m, h, col), CellIndex(ByColumn, m, h, col));
    CellOfOneCell(m, CellIndex(Adjacent, m, h, col), CellIndex(Adjacent, m, h, col));
    OwnCell(level, h, col);
    assert NodeDigest(hash, leaves, d, h)[col] == 1;
  }

  lemma TwoOrMore(bits: nat)
    requires bits > 0
    ensures Pow2(bits) >= 2
  {
  }

  lemma SpreadNothing(v: seq<Digest>)
    ensures Spread(v, 0) == v
  {
  }

  lemma OwnCell(v: seq<Digest>, h: nat, col: nat)
    requires h < |v| && col < CAPACITY
    ensures Cell(v, CellIndex(Adjacent, |v|, h, col)) == v[h][col]
  {
    assert (CAPACITY * h + col) / CAPACITY == h && (CAPACITY * h + col) % CAPACITY == col;
  }

  /**
   * Whatever the permutation and the leaves, the sibling at layer d is gathered exactly when the node kernel stores its
   * layers column by column and d is above the leaves, which the leaf kernels store with adjacent cells.
   */
  lemma SiblingsGatheredExactly(layout: Layout, bits: nat, layers: nat, d: nat, index: nat)
    requires d <= layers <= bits && d < bits && index < Pow2(bits)
    ensures (forall perm: Permutation, leaves: seq<Digest> :: |leaves| == Pow2(bits) ==>
               SiblingGathered(NodeHash(perm, layout), leaves, bits, layers, d, index))
       <==> layout == ByColumn && d >= 1
  {
    hide SiblingGathered;
    if layout == ByColumn && d >= 1 {
      forall perm: Permutation, leaves: seq<Digest> | |leaves| == Pow2(bits)
        ensures SiblingGathered(NodeHash(perm, layout), leaves, bits, layers, d, index)
      {
        ColumnsGathered(NodeHash(perm, layout), leaves, bits, layers, d, index);
      }
    } else {
      var leaves := GatherMissesSibling(layout, bits, layers, d, index);
    }
  }
}
