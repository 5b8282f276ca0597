// The finished tree as it lies in memory: which digests the node kernel has seen, and where their cells are.
module StoredTree {
  import opened Field
  import opened Bits
  import opened Layouts
  import opened Leaves
  import opened MerkleNodes
  import opened MerklePaths

  // ---- The stored layers ----

  /** The leaves, followed by the layers as the node kernel stores them. */
  function StoredFlat(hash: NodeHash, leaves: seq<Digest>, layers: nat): seq<Digest>
  {
    leaves + StoredLayers(hash, leaves, layers)
  }

  /** The recursion over the flat buffer leaves exactly this behind. */
  lemma BuiltIsFlat(hash: NodeHash, after: seq<Digest>, leaves: seq<Digest>, rest: seq<Digest>, layers: nat)
    requires Built(hash, after, [], leaves, rest, layers)
    ensures |StoredFlat(hash, leaves, layers)| <= |after|
    ensures after[..|StoredFlat(hash, leaves, layers)|] == StoredFlat(hash, leaves, layers)
  {
    hide StoredLayers;
  }

  /** Layer d as it is stored; the leaves are stored by another kernel. */
  function StoredLevel(hash: NodeHash, leaves: seq<Digest>, d: nat): seq<Digest>
  {
    if d == 0 then leaves else Above(hash, StoredLevel(hash, leaves, d - 1))
  }

  /** What is seen in layer d is the layer at height d above the leaves that are seen. */
  lemma {:induction false} LevelSeen(hash: NodeHash, leaves: seq<Digest>, d: nat)
    ensures Seen(hash.layout, StoredLevel(hash, leaves, d))
         == Level(Compress(hash.perm), Seen(hash.layout, leaves), d)
    ensures |StoredLevel(hash, leaves, d)| == |Level(Compress(hash.perm), Seen(hash.layout, leaves), d)|
  {
    hide Seen, Stored, Parents;
    if d > 0 {
      LevelSeen(hash, leaves, d - 1);
      SeenStored(hash.layout, Parents(Compress(hash.perm), Seen(hash.layout, StoredLevel(hash, leaves, d - 1))));
    }
  }

  lemma {:induction false} LevelAbove(hash: NodeHash, leaves: seq<Digest>, d: nat)
    ensures StoredLevel(hash, leaves, d + 1) == StoredLevel(hash, Above(hash, leaves), d)
  {
    hide Above;
    if d > 0 {
      LevelAbove(hash, leaves, d - 1);
    }
  }

  lemma FlatAbove(hash: NodeHash, leaves: seq<Digest>, layers: nat)
    requires layers > 0
    ensures StoredFlat(hash, leaves, layers) == leaves + StoredFlat(hash, Above(hash, leaves), layers - 1)
  {
    hide Above;
  }

  lemma LiesBehind(tree: seq<Digest>, first: seq<Digest>, at: int, level: seq<Digest>)
    requires LiesAt(tree, at, level)
    ensures LiesAt(first + tree, |first| + at, level)
  {
  }

  /** Layer d is stored at the offset of layer d. */
  lemma {:induction false} StoredLevelLies(hash: NodeHash, leaves: seq<Digest>, bits: nat, layers: nat, d: nat)
    requires d <= layers <= bits && |leaves| == Pow2(bits)
    ensures LiesAt(StoredFlat(hash, leaves, layers), LayerOffset(bits, d), StoredLevel(hash, leaves, d))
    decreases d
  {
    hide Above, StoredFlat;
    if d > 0 {
      HalfOf(bits - 1, |leaves|);
      StoredLevelLies(hash, Above(hash, leaves), bits - 1, layers - 1, d - 1);
      LevelAbove(hash, leaves, d - 1);
      FlatAbove(hash, leaves, layers);
      OffsetStep(bits, d);
      LiesBehind(StoredFlat(hash, Above(hash, leaves), layers - 1), leaves, LayerOffset(bits - 1, d - 1),
                 StoredLevel(hash, leaves, d));
    } else {
      FirstLies(hash, leaves, bits, layers);
    }
  }

  lemma FirstLies(hash: NodeHash, leaves: seq<Digest>, bits: nat, layers: nat)
    ensures LayerOffset(bits, 0) == 0 && LiesAt(StoredFlat(hash, leaves, layers), 0, leaves)
  {
    hide StoredLayers;
  }

  // ---- Cells ----

  /** The cells of a buffer of digests. */
  function Cells(v: seq<Digest>): (r: seq<Fp>)
    ensures |r| == CAPACITY * |v|
  {
    seq<Fp>(CAPACITY * |v|, p requires 0 <= p < CAPACITY * |v| => Cell(v, p))
  }

  /** The place of cell `col` of digest h of layer d. */
  function CellAddress(layout: Layout, bits: nat, d: nat, col: nat, h: nat): int
    requires d <= bits && col < CAPACITY && h < Pow2(bits - d)
  {
    CAPACITY * LayerOffset(bits, d) + CellIndex(layout, Pow2(bits - d), h, col)
  }

  /** The cell that digest h of layer d of the tree has in the given layout. */
  ghost predicate CellHeld(layout: Layout, cells: seq<Fp>, tree: seq<Digest>, bits: nat, d: nat, col: nat, h: nat)
    requires d <= bits && col < CAPACITY && h < Pow2(bits - d)
  {
    && 0 <= LayerOffset(bits, d) + h < |tree| && 0 <= CellAddress(layout, bits, d, col, h) < |cells|
    && cells[CellAddress(layout, bits, d, col, h)] == tree[LayerOffset(bits, d) + h][col]
  }

  /** The cells of a tree with its layers, up to layer `layers`, in the given layout. */
  ghost predicate CellsHold(layout: Layout, cells: seq<Fp>, tree: seq<Digest>, bits: nat, layers: nat)
  {
    forall d: nat, col: nat, h: nat ::
      d <= layers && d <= bits && col < CAPACITY && h < Pow2(bits - d) ==>
        CellHeld(layout, cells, tree, bits, d, col, h)
  }

  lemma CellInLevel(now: seq<Digest>, at: int, level: seq<Digest>, p: nat)
    requires LiesAt(now, at, level) && p < CAPACITY * |level|
    ensures 0 <= CAPACITY * at + p < |Cells(now)| && Cells(now)[CAPACITY * at + p] == Cell(level, p)
  {
    var q := CAPACITY * at + p;
    assert q / CAPACITY == at + p / CAPACITY && q % CAPACITY == p % CAPACITY;
    assert at <= at + p / CAPACITY < at + |level|;
  }

  lemma LiesInPrefix(now: seq<Digest>, tree: seq<Digest>, at: int, level: seq<Digest>)
    requires |tree| <= |now| && now[..|tree|] == tree && LiesAt(tree, at, level)
    ensures LiesAt(now, at, level)
  {
    forall i | at <= i < at + |level|
      ensures now[i] == level[i - at]
    {
      assert now[..|tree|][i] == now[i];
    }
  }

  /**
   * After a build the cells are those of the Merkle tree, in the layout of the node kernel, over the leaves that this
   * kernel sees: the leaves themselves when it keeps the cells of a digest together.
   */
  lemma FinishedTreeCells(hash: NodeHash, now: seq<Digest>, leaves: seq<Digest>, rest: seq<Digest>, bits: nat,
                          layers: nat)
    requires layers <= bits && |leaves| == Pow2(bits) && Built(hash, now, [], leaves, rest, layers)
    ensures CellsHold(hash.layout, Cells(now), Flat(Compress(hash.perm), Seen(hash.layout, leaves), layers), bits,
                      layers)
  {
    hide Built, StoredFlat, Cells, CellHeld, Seen;
    forall d: nat, col: nat, h: nat | d <= layers && d <= bits && col < CAPACITY && h < Pow2(bits - d)
      ensures CellHeld(hash.layout, Cells(now), Flat(Compress(hash.perm), Seen(hash.layout, leaves), layers), bits,
                       d, col, h)
    {
      FinishedTreeCell(hash, now, leaves, rest, bits, layers, d, col, h);
    }
  }

  lemma FinishedTreeCell(hash: NodeHash, now: seq<Digest>, leaves: seq<Digest>, rest: seq<Digest>, bits: nat,
                         layers: nat, d: nat, col: nat, h: nat)
    requires layers <= bits && |leaves| == Pow2(bits) && Built(hash, now, [], leaves, rest, layers)
    requires d <= layers && col < CAPACITY && h < Pow2(bits - d)
    ensures CellHeld(hash.layout, Cells(now), Flat(Compress(hash.perm), Seen(hash.layout, leaves), layers), bits,
                     d, col, h)
  {
    hide Built, StoredFlat, Cells, Cell, CellIndex, Seen, Flat, Level, StoredLevel;
    var f, seen := Compress(hash.perm), Seen(hash.layout, leaves);
    var stored := StoredLevel(hash, leaves, d);
    BuiltIsFlat(hash, now, leaves, rest, layers);
    StoredLevelLies(hash, leaves, bits, layers, d);
    LiesInPrefix(now, StoredFlat(hash, leaves, layers), LayerOffset(bits, d), stored);
    LevelSeen(hash, leaves, d);
    LevelLength(f, seen, bits, d);
    CellInLevel(now, LayerOffset(bits, d), stored, CellIndex(hash.layout, |stored|, h, col));
    CellOfSeen(hash.layout, stored, h, col);
    LayerIsSlice(f, seen, bits, layers, d);
    ReadLevel(Flat(f, seen, layers), LayerOffset(bits, d), Level(f, seen, d), h);
  }
}
