// Paths through the flat tree: where a layer lies, what the gathered siblings prove, and what the gathering kernel
// reads.
module MerklePaths {
  import opened Bits
  import opened MerkleNodes

  // ---- The flat layout ----

  /** A finished tree: the leaves, followed by `layers` layers above them. */
  function Flat<T>(f: Compression<T>, leaves: seq<T>, layers: nat): seq<T>
  {
    leaves + Layers(f, leaves, layers)
  }

  /** Where layer d of a tree with 2^bits leaves begins. */
  function LayerOffset(bits: nat, d: nat): int
    requires d <= bits
  {
    Pow2(bits + 1) - Pow2(bits + 1 - d)
  }

  lemma {:induction false} LevelLength<T>(f: Compression<T>, leaves: seq<T>, bits: nat, d: nat)
    requires d <= bits && |leaves| == Pow2(bits)
    ensures |Level(f, leaves, d)| == Pow2(bits - d)
  {
    if d > 0 {
      LevelLength(f, leaves, bits, d - 1);
      HalfOf(bits - d, |Level(f, leaves, d - 1)|);
    }
  }

  lemma HalfOf(bits: nat, n: nat)
    requires n == Pow2(bits + 1)
    ensures n / 2 == Pow2(bits) && n % 2 == 0
  {
  }

  lemma {:induction false} LevelOfParents<T>(f: Compression<T>, v: seq<T>, d: nat)
    ensures Level(f, v, d + 1) == Level(f, Parents(f, v), d)
  {
    if d > 0 {
      LevelOfParents(f, v, d - 1);
    }
  }

  lemma OffsetStep(bits: nat, d: nat)
    requires 0 < d <= bits
    ensures LayerOffset(bits, d) == Pow2(bits) + LayerOffset(bits - 1, d - 1)
  {
  }

  /** The slice of `tree` from `at` on is `level`. */
  ghost predicate LiesAt<T>(tree: seq<T>, at: int, level: seq<T>)
  {
    0 <= at && at + |level| <= |tree| && forall i :: at <= i < at + |level| ==> tree[i] == level[i - at]
  }

  // Several layers, one after the other.

  function Concat<T>(levels: seq<seq<T>>): seq<T>
  {
    if levels == [] then [] else levels[0] + Concat(levels[1..])
  }

  ghost predicate Halving<T>(levels: seq<seq<T>>, bits: nat)
  {
    |levels| <= bits + 1 && forall d: nat :: d < |levels| ==> |levels[d]| == Pow2(bits - d)
  }

  lemma HalvingTail<T>(levels: seq<seq<T>>, bits: nat)
    requires Halving(levels, bits) && |levels| > 1
    ensures Halving(levels[1..], bits - 1)
  {
    forall d: nat | d < |levels| - 1
      ensures |levels[1..][d]| == Pow2(bits - 1 - d)
    {
      assert levels[1..][d] == levels[d + 1];
    }
  }

  lemma {:induction false} ConcatSlice<T>(levels: seq<seq<T>>, bits: nat, d: nat)
    requires Halving(levels, bits) && d < |levels|
    ensures LiesAt(Concat(levels), LayerOffset(bits, d), levels[d])
  {
    if d > 0 {
      HalvingTail(levels, bits);
      ConcatSlice(levels[1..], bits - 1, d - 1);
      OffsetStep(bits, d);
    }
  }

  lemma {:induction false} ConcatLength<T>(levels: seq<seq<T>>, bits: nat)
    requires Halving(levels, bits) && levels != []
    ensures |Concat(levels)| == LayerOffset(bits, |levels| - 1) + Pow2(bits - |levels| + 1)
  {
    if |levels| > 1 {
      HalvingTail(levels, bits);
      ConcatLength(levels[1..], bits - 1);
      OffsetStep(bits, |levels| - 1);
    } else {
      assert levels[1..] == [];
    }
  }

  // The tree consists of its levels.

  function Levels<T>(f: Compression<T>, leaves: seq<T>, layers: nat): (r: seq<seq<T>>)
    ensures |r| == layers + 1
  {
    seq(layers + 1, d requires 0 <= d < layers + 1 => Level(f, leaves, d))
  }

  lemma LevelsTail<T>(f: Compression<T>, leaves: seq<T>, layers: nat)
    requires layers > 0
    ensures Levels(f, leaves, layers)[0] == leaves
    ensures Levels(f, leaves, layers)[1..] == Levels(f, Parents(f, leaves), layers - 1)
  {
    var tail, levels := Levels(f, Parents(f, leaves), layers - 1), Levels(f, leaves, layers)[1..];
    forall d | 0 <= d < layers
      ensures levels[d] == tail[d]
    {
      LevelOfParents(f, leaves, d);
    }
  }

  lemma FlatStep<T>(f: Compression<T>, leaves: seq<T>, layers: nat)
    requires layers > 0
    ensures Flat(f, leaves, layers) == leaves + Flat(f, Parents(f, leaves), layers - 1)
  {
    hide Parents;
  }

  lemma OneLevel<T>(f: Compression<T>, leaves: seq<T>, layers: nat)
    requires layers == 0
    ensures Flat(f, leaves, layers) == Concat(Levels(f, leaves, layers))
  {
    ConcatCons(Levels(f, leaves, layers), leaves, []);
  }

  lemma ConcatCons<T>(levels: seq<seq<T>>, head: seq<T>, tail: seq<seq<T>>)
    requires |levels| > 0 && levels[0] == head && levels[1..] == tail
    ensures Concat(levels) == head + Concat(tail)
  {
  }

  lemma {:induction false} FlatIsConcat<T>(f: Compression<T>, leaves: seq<T>, layers: nat)
    ensures Flat(f, leaves, layers) == Concat(Levels(f, leaves, layers))
    decreases layers
  {
    hide Parents, Level, Layers;
    if layers == 0 {
      OneLevel(f, leaves, layers);
    } else {
      FlatIsConcat(f, Parents(f, leaves), layers - 1);
      LevelsTail(f, leaves, layers);
      FlatStep(f, leaves, layers);
      ConcatCons(Levels(f, leaves, layers), leaves, Levels(f, Parents(f, leaves), layers - 1));
    }
  }

  lemma LevelsHalve<T>(f: Compression<T>, leaves: seq<T>, bits: nat, layers: nat)
    requires layers <= bits && |leaves| == Pow2(bits)
    ensures Halving(Levels(f, leaves, layers), bits)
  {
    forall d: nat | d < layers + 1
      ensures |Levels(f, leaves, layers)[d]| == Pow2(bits - d)
    {
      LevelLength(f, leaves, bits, d);
    }
  }

  /** The layers are slices in order: layer d is the slice of length 2^(bits-d) at its offset. */
  lemma LayerIsSlice<T>(f: Compression<T>, leaves: seq<T>, bits: nat, layers: nat, d: nat)
    requires d <= layers <= bits && |leaves| == Pow2(bits)
    ensures LiesAt(Flat(f, leaves, layers), LayerOffset(bits, d), Level(f, leaves, d))
  {
    LevelsHalve(f, leaves, bits, layers);
    ConcatSlice(Levels(f, leaves, layers), bits, d);
    FlatIsConcat(f, leaves, layers);
  }

  /** Each layer begins where the one below ends. */
  lemma LayersAdjacent(bits: nat, d: nat)
    requires d < bits
    ensures LayerOffset(bits, d + 1) == LayerOffset(bits, d) + Pow2(bits - d)
  {
  }

  /** The last layer ends where the tree ends. */
  lemma LayersFill<T>(f: Compression<T>, leaves: seq<T>, bits: nat, layers: nat)
    requires layers <= bits && |leaves| == Pow2(bits)
    ensures |Flat(f, leaves, layers)| == LayerOffset(bits, layers) + Pow2(bits - layers)
  {
    LevelsHalve(f, leaves, bits, layers);
    ConcatLength(Levels(f, leaves, layers), bits);
    FlatIsConcat(f, leaves, layers);
  }

  // ---- Paths ----

  /** `index ^ 1`. */
  function Sibling(index: nat): (r: nat)
    ensures r / 2 == index / 2 && r % 2 != index % 2
  {
    if index % 2 == 0 then index + 1 else index - 1
  }

  lemma SiblingFits(index: nat, bits: nat)
    requires index < Pow2(bits) && bits > 0
    ensures Sibling(index) < Pow2(bits)
  {
  }

  /** `index >> d`. */
  function Ancestor(index: nat, d: nat): nat
  {
    if d == 0 then index else Ancestor(index, d - 1) / 2
  }

  lemma {:induction false} AncestorFits(index: nat, bits: nat, d: nat)
    requires index < Pow2(bits) && d <= bits
    ensures Ancestor(index, d) < Pow2(bits - d)
  {
    if d > 0 {
      AncestorFits(index, bits, d - 1);
    }
  }

  /** Entry d of the path is the sibling of the ancestor at layer d, as the tests read it from the flat tree. */
  ghost predicate OnPath<T>(tree: seq<T>, bits: nat, index: nat, entry: T, d: nat)
  {
    d <= bits && 0 <= LayerOffset(bits, d) + Sibling(Ancestor(index, d)) < |tree| &&
    entry == tree[LayerOffset(bits, d) + Sibling(Ancestor(index, d))]
  }

  ghost predicate IsPath<T>(tree: seq<T>, bits: nat, index: nat, path: seq<T>)
  {
    forall d: nat :: d < |path| ==> OnPath(tree, bits, index, path[d], d)
  }

  /** Recomputing the ancestor at height d from a digest and its siblings. */
  function Fold<T>(f: Compression<T>, digest: T, index: nat, path: seq<T>, d: nat): T
    requires d <= |path|
  {
    if d == 0 then digest
    else
      var below := Fold(f, digest, index, path, d - 1);
      if Ancestor(index, d - 1) % 2 == 0 then f(below, path[d - 1]) else f(path[d - 1], below)
  }

  lemma ParentOf<T>(f: Compression<T>, layer: seq<T>, i: nat)
    requires i < |layer| && Sibling(i) < |layer| && |layer| % 2 == 0
    ensures i / 2 < |Parents(f, layer)|
    ensures Parents(f, layer)[i / 2]
         == if i % 2 == 0 then f(layer[i], layer[Sibling(i)]) else f(layer[Sibling(i)], layer[i])
  {
  }

  lemma ReadLevel<T>(tree: seq<T>, at: int, level: seq<T>, i: nat)
    requires LiesAt(tree, at, level) && i < |level|
    ensures at + i < |tree| && tree[at + i] == level[i]
  {
  }

  /** Layer d + 1 consists of the parents of layer d. */
  ghost predicate LayerAbove<T>(f: Compression<T>, levels: seq<seq<T>>, d: nat)
  {
    d + 1 < |levels| && levels[d + 1] == Parents(f, levels[d])
  }

  ghost predicate Tower<T>(f: Compression<T>, levels: seq<seq<T>>, bits: nat)
  {
    Halving(levels, bits) && forall d: nat :: d < |levels| - 1 ==> LayerAbove(f, levels, d)
  }

  /** One step up: from a node and its sibling to the parent. */
  lemma StepUp<T>(f: Compression<T>, levels: seq<seq<T>>, bits: nat, index: nat, path: seq<T>, d: nat, digest: T)
    requires d < bits && d < |path| && index < Pow2(bits) && Halving(levels, bits) && LayerAbove(f, levels, d)
    requires OnPath(Concat(levels), bits, index, path[d], d)
    requires Ancestor(index, d) < |levels[d]| && Fold(f, digest, index, path, d) == levels[d][Ancestor(index, d)]
    ensures Ancestor(index, d + 1) < |levels[d + 1]|
    ensures Fold(f, digest, index, path, d + 1) == levels[d + 1][Ancestor(index, d + 1)]
  {
    var at := Ancestor(index, d);
    AncestorFits(index, bits, d);
    SiblingFits(at, bits - d);
    ConcatSlice(levels, bits, d);
    ReadLevel(Concat(levels), LayerOffset(bits, d), levels[d], Sibling(at));
    HalfOf(bits - d - 1, |levels[d]|);
    ParentOf(f, levels[d], at);
  }

  lemma FoldNothing<T>(f: Compression<T>, digest: T, index: nat, path: seq<T>, d: nat)
    requires d == 0
    ensures Fold(f, digest, index, path, d) == digest && Ancestor(index, d) == index
  {
  }

  lemma {:induction false} FoldInTower<T>(f: Compression<T>, levels: seq<seq<T>>, bits: nat, index: nat, path: seq<T>,
                                          d: nat, digest: T)
    requires d <= |path| < |levels| && Tower(f, levels, bits) && index < Pow2(bits) && digest == levels[0][index]
    requires IsPath(Concat(levels), bits, index, path)
    ensures Ancestor(index, d) < |levels[d]|
    ensures Fold(f, digest, index, path, d) == levels[d][Ancestor(index, d)]
  {
    hide Fold, Concat, Parents, Ancestor;
    if d > 0 {
      FoldInTower(f, levels, bits, index, path, d - 1, digest);
      assert LayerAbove(f, levels, d - 1);
      assert OnPath(Concat(levels), bits, index, path[d - 1], d - 1);
      StepUp(f, levels, bits, index, path, d - 1, digest);
    } else {
      AncestorFits(index, bits, d);
      FoldNothing(f, digest, index, path, d);
    }
  }

  lemma TreeIsTower<T>(f: Compression<T>, leaves: seq<T>, bits: nat, layers: nat)
    requires layers <= bits && |leaves| == Pow2(bits)
    ensures Tower(f, Levels(f, leaves, layers), bits)
  {
    hide Halving, Parents;
    LevelsHalve(f, leaves, bits, layers);
    var levels := Levels(f, leaves, layers);
    forall d: nat | d < |levels| - 1
      ensures LayerAbove(f, levels, d)
    {
      assert levels[d + 1] == Level(f, leaves, d + 1);
    }
  }

  /** Folding any leaf with its gathered path gives, at every depth, the ancestor that the tree stores. */
  lemma PathLeadsToAncestor<T>(f: Compression<T>, leaves: seq<T>, bits: nat, layers: nat, index: nat, path: seq<T>,
                               d: nat)
    requires d <= |path| <= layers <= bits && |leaves| == Pow2(bits) && index < |leaves|
    requires IsPath(Flat(f, leaves, layers), bits, index, path)
    ensures Ancestor(index, d) < |Level(f, leaves, d)|
    ensures Fold(f, leaves[index], index, path, d) == Level(f, leaves, d)[Ancestor(index, d)]
  {
    TreeIsTower(f, leaves, bits, layers);
    FlatIsConcat(f, leaves, layers);
    FoldInTower(f, Levels(f, leaves, layers), bits, index, path, d, leaves[index]);
  }
}
