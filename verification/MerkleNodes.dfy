// The inner nodes of the tree: a flat buffer of layers, filled by a recursive halving.
module MerkleNodes {
  import opened Bits
  import opened Field
  import opened Layouts
  import opened Leaves

  // ---- Specification ----

  function Node(perm: Permutation, left: Digest, right: Digest): Digest
  {
    LeafDigest(perm(left + right + ZERO_STATE[RATE..]))
  }

  /** A two-to-one compression of digests, whatever a digest is. */
  type Compression<!T> = (T, T) -> T

  function Compress(perm: Permutation): Compression<Digest>
  {
    (left: Digest, right: Digest) => Node(perm, left, right)
  }

  function Parents<T>(f: Compression<T>, layer: seq<T>): (r: seq<T>)
    ensures |r| == |layer| / 2
  {
    seq(|layer| / 2, i requires 0 <= i < |layer| / 2 => f(layer[2 * i], layer[2 * i + 1]))
  }

  /** The layer at height `d` above `leaves`. */
  function Level<T>(f: Compression<T>, leaves: seq<T>, d: nat): seq<T>
  {
    if d == 0 then leaves else Parents(f, Level(f, leaves, d - 1))
  }

  /** The `layers` layers above `v`, one after the other. */
  function Layers<T>(f: Compression<T>, v: seq<T>, layers: nat): seq<T>
    decreases layers
  {
    if layers == 0 then [] else Parents(f, v) + Layers(f, Parents(f, v), layers - 1)
  }

  // ---- The length assertions of the recursion ----

  /** All assertions of `layers` nested calls on a layer of `len` digests with room for `room` more hold. */
  predicate AssertionsHold(len: nat, room: nat, layers: nat)
  {
    layers == 0 ||
    (len % 2 == 0 && PowerOfTwo(len / 2) && len == room && AssertionsHold(len / 2, room - room / 2, layers - 1))
  }

  /**
   * They hold exactly when the layer is a power of two, matches its room and leaves a digest on every requested layer.
   */
  lemma {:induction false} AssertionsCharacterised(len: nat, room: nat, layers: nat)
    ensures AssertionsHold(len, room, layers)
       <==> layers == 0 || (PowerOfTwo(len) && len == room && Pow2(layers) <= len)
  {
    if layers > 0 {
      AssertionsCharacterised(len / 2, room - room / 2, layers - 1);
      if len > 0 && len % 2 == 0 {
        HalvePower(len);
      } else if PowerOfTwo(len) {
        assert TrailingZeros(len) == 0;
      }
      if layers == 1 {
        assert Pow2(0) == 1;
      }
    }
  }

  // ---- The recursion ----

  /** The permutation of the node kernel and the layout in which it reads and stores the cells of a layer. */
  datatype NodeHash = NodeHash(perm: Permutation, layout: Layout)

  /** What the node kernel stores above the stored layer `v`. */
  function Above(hash: NodeHash, v: seq<Digest>): (r: seq<Digest>)
    ensures |r| == |v| / 2
  {
    Stored(hash.layout, Parents(Compress(hash.perm), Seen(hash.layout, v)))
  }

  lemma NodeOfPair(perm: Permutation, left: Digest, right: Digest)
    ensures var l: seq<Fp>, r: seq<Fp> := left, right;
            Node(perm, left, right) == perm(l + r + [0, 0, 0, 0])[..4]
  {
    var l: seq<Fp>, r: seq<Fp> := left, right;
    assert l + r + ZERO_STATE[RATE..] == l + r + [0, 0, 0, 0];
  }

  /** What is seen above `v`: the start of the permuted pairs, left digest first. */
  lemma NodesSeen(hash: NodeHash, v: seq<Digest>)
    ensures forall i: nat :: i < |v| / 2 ==>
              var left: seq<Fp>, right: seq<Fp> := Seen(hash.layout, v)[2 * i], Seen(hash.layout, v)[2 * i + 1];
              Seen(hash.layout, Above(hash, v))[i] == hash.perm(left + right + [0, 0, 0, 0])[..4]
  {
    hide Seen, Stored;
    SeenStored(hash.layout, Parents(Compress(hash.perm), Seen(hash.layout, v)));
    forall i: nat | i < |v| / 2
      ensures var left: seq<Fp>, right: seq<Fp> := Seen(hash.layout, v)[2 * i], Seen(hash.layout, v)[2 * i + 1];
              Seen(hash.layout, Above(hash, v))[i] == hash.perm(left + right + [0, 0, 0, 0])[..4]
    {
      var left, right := Seen(hash.layout, v)[2 * i], Seen(hash.layout, v)[2 * i + 1];
      assert Seen(hash.layout, Above(hash, v))[i] == Node(hash.perm, left, right);
      NodeOfPair(hash.perm, left, right);
    }
  }

  /** With adjacent cells, node i starts the permuted digests 2i and 2i + 1 of the layer. */
  lemma AdjacentNode(perm: Permutation, v: seq<Digest>, i: nat)
    requires i < |v| / 2
    ensures var left: seq<Fp>, right: seq<Fp> := v[2 * i], v[2 * i + 1];
            Above(NodeHash(perm, Adjacent), v)[i] == perm(left + right + [0, 0, 0, 0])[..4]
  {
    hide Seen, Stored, Above;
    var hash := NodeHash(perm, Adjacent);
    NodesSeen(hash, v);
    SeenAdjacent(v);
    SeenAdjacent(Above(hash, v));
  }

  /** Digests 2i and 2i + 1 of a layer that is read column by column, in front of zeros. */
  function PairByColumn(v: seq<Digest>, i: nat): State
    requires i < |v| / 2
  {
    var n, l, r := |v|, 2 * i, 2 * i + 1;
    [Cell(v, l), Cell(v, n + l), Cell(v, 2 * n + l), Cell(v, 3 * n + l),
     Cell(v, r), Cell(v, n + r), Cell(v, 2 * n + r), Cell(v, 3 * n + r), 0, 0, 0, 0]
  }

  /** Column by column, cell c of node i starts column c of the layer above, at i. */
  lemma ByColumnNode(perm: Permutation, v: seq<Digest>, i: nat, c: nat)
    requires i < |v| / 2 && c < 4
    ensures ColumnStart(|v| / 2, c) + i < 4 * (|v| / 2)
    ensures Cell(Above(NodeHash(perm, ByColumn), v), ColumnStart(|v| / 2, c) + i) == perm(PairByColumn(v, i))[c]
  {
    hide Stored, Above, Cell, Seen;
    var hash := NodeHash(perm, ByColumn);
    NodesSeen(hash, v);
    CellOfSeen(ByColumn, Above(hash, v), i, c);
    PairSeenByColumn(v, i);
  }

  lemma PairSeenByColumn(v: seq<Digest>, i: nat)
    requires i < |v| / 2
    ensures var left: seq<Fp>, right: seq<Fp> := Seen(ByColumn, v)[2 * i], Seen(ByColumn, v)[2 * i + 1];
            left + right + [0, 0, 0, 0] == PairByColumn(v, i)
  {
    hide Cell;
  }

  /** The `layers` layers stored above `v`, one after the other. */
  function StoredLayers(hash: NodeHash, v: seq<Digest>, layers: nat): seq<Digest>
    decreases layers
  {
    if layers == 0 then [] else Above(hash, v) + StoredLayers(hash, Above(hash, v), layers - 1)
  }

  /** The loads of one digest of the layer `v` at `at`. */
  method ReadDigest(layout: Layout, a: array<Digest>, at: nat, n: nat, h: nat, ghost v: seq<Digest>)
    returns (x: Digest)
    requires |v| == n && at + n <= a.Length && a[at..at + n] == v && h < n
    ensures x == Seen(layout, v)[h]
  {
    hide CellIndex, Seen;
    x := [0, 0, 0, 0];
    for c: nat := 0 to CAPACITY
      invariant forall c': nat :: c' < c ==> x[c'] == Seen(layout, v)[h][c']
    {
      CellOfSeen(layout, v, h, c);
      var p := CellIndex(layout, n, h, c);
      assert a[at..at + n][p / CAPACITY] == a[at + p / CAPACITY];
      x := x[c := a[at + p / CAPACITY][p % CAPACITY]];
    }
    SameDigest(x, Seen(layout, v)[h]);
  }

  /** The stores of one digest into the layer `v` at `at`. */
  method WriteDigest(layout: Layout, a: array<Digest>, at: nat, n: nat, h: nat, x: Digest, ghost pre: seq<Digest>,
                     ghost v: seq<Digest>, ghost post: seq<Digest>)
    requires |pre| == at && |v| == n && a[..] == pre + v + post && h < n
    modifies a
    ensures a[..] == pre + WithCells(layout, v, h, x, CAPACITY) + post
  {
    hide CellIndex;
    for c: nat := 0 to CAPACITY
      invariant a[..] == pre + WithCells(layout, v, h, x, c) + post
    {
      ghost var w := WithCells(layout, v, h, x, c);
      var p := CellIndex(layout, n, h, c);
      assert a[..][at + p / CAPACITY] == w[p / CAPACITY];
      a[at + p / CAPACITY] := a[at + p / CAPACITY][p % CAPACITY := x[c]];
      assert a[..] == (pre + w + post)[at + p / CAPACITY := w[p / CAPACITY][p % CAPACITY := x[c]]];
    }
  }

  /** The first i digests seen in the layer `w` are those of `target`. */
  ghost predicate SeenUpTo(layout: Layout, w: seq<Digest>, target: seq<Digest>, i: nat)
    requires |w| == |target|
  {
    forall h: nat :: h < i && h < |w| ==> Seen(layout, w)[h] == target[h]
  }

  lemma AllSeen(layout: Layout, w: seq<Digest>, target: seq<Digest>)
    requires |w| == |target| && SeenUpTo(layout, w, target, |w|)
    ensures w == Stored(layout, target)
  {
    hide Seen, Stored;
    assert Seen(layout, w) == target;
    StoredSeen(layout, w);
  }

  /** Thread i of the kernel. */
  method NodeThread(hash: NodeHash, a: array<Digest>, src: nat, len: nat, i: nat, ghost pre: seq<Digest>,
                    ghost v: seq<Digest>, ghost w: seq<Digest>, ghost rest: seq<Digest>)
    returns (ghost next: seq<Digest>)
    requires |pre| == src && |v| == len && |w| == len / 2 && i < len / 2 && a[..] == pre + v + w + rest
    requires SeenUpTo(hash.layout, w, Parents(Compress(hash.perm), Seen(hash.layout, v)), i)
    modifies a
    ensures |next| == len / 2 && a[..] == pre + v + next + rest
    ensures SeenUpTo(hash.layout, next, Parents(Compress(hash.perm), Seen(hash.layout, v)), i + 1)
  {
    hide Seen, WithCells;
    assert a[src..src + len] == v;
    var left := ReadDigest(hash.layout, a, src, len, 2 * i, v);
    var right := ReadDigest(hash.layout, a, src, len, 2 * i + 1, v);
    var x := Node(hash.perm, left, right);
    WriteDigest(hash.layout, a, src + len, len / 2, i, x, pre + v, w, rest);
    next := WithCells(hash.layout, w, i, x, CAPACITY);
    SeenReplaced(hash.layout, w, i, x);
  }

  /** `single_thread_nodes_impl` over the pairs of the layer `v`, in either layout. */
  method NodesKernel(hash: NodeHash, a: array<Digest>, src: nat, len: nat,
                     ghost pre: seq<Digest>, ghost v: seq<Digest>, ghost rest: seq<Digest>)
    requires |pre| == src && |v| == len && len / 2 <= |rest| && a[..] == pre + v + rest
    modifies a
    ensures a[..] == pre + v + Above(hash, v) + rest[len / 2..]
    ensures forall i: nat :: i < len / 2 ==>
            var left: seq<Fp>, right: seq<Fp> := Seen(hash.layout, v)[2 * i], Seen(hash.layout, v)[2 * i + 1];
            Seen(hash.layout, a[src + len..src + len + len / 2])[i] == hash.perm(left + right + [0, 0, 0, 0])[..4]
  {
    hide Seen, Stored;
    ghost var target := Parents(Compress(hash.perm), Seen(hash.layout, v));
    ghost var w, after := rest[..len / 2], rest[len / 2..];
    assert a[..] == pre + v + w + after;
    for i: nat := 0 to len / 2
      invariant |w| == len / 2 && a[..] == pre + v + w + after && SeenUpTo(hash.layout, w, target, i)
    {
      w := NodeThread(hash, a, src, len, i, pre, v, w, after);
    }
    AllSeen(hash.layout, w, target);
    assert a[src + len..src + len + len / 2] == w;
    NodesSeen(hash, v);
  }

  /** `after` holds the layer `v` behind `pre`, then `layers` layers above it, then what `rest` had there. */
  ghost predicate Built(hash: NodeHash, after: seq<Digest>, pre: seq<Digest>, v: seq<Digest>, rest: seq<Digest>,
                        layers: nat)
  {
    var above := StoredLayers(hash, v, layers);
    |above| <= |rest| && after == pre + v + above + rest[|above|..]
  }

  lemma BuiltNothing(hash: NodeHash, pre: seq<Digest>, v: seq<Digest>, rest: seq<Digest>)
    ensures Built(hash, pre + v + rest, pre, v, rest, 0)
  {
    assert StoredLayers(hash, v, 0) == [];
  }

  lemma BuiltStep(hash: NodeHash, after: seq<Digest>, pre: seq<Digest>, v: seq<Digest>, rest: seq<Digest>, layers: nat)
    requires layers > 0 && |v| / 2 <= |rest|
    requires Built(hash, after, pre + v, Above(hash, v), rest[|v| / 2..], layers - 1)
    ensures Built(hash, after, pre, v, rest, layers)
  {
    hide Above;
    var next := StoredLayers(hash, Above(hash, v), layers - 1);
    assert StoredLayers(hash, v, layers) == Above(hash, v) + next;
    assert rest[|v| / 2..][|next|..] == rest[|v| / 2 + |next|..];
  }

  /**
   * `build_merkle_tree_nodes`: the layer `v` lies at `at`, directly followed by room for `room` digests.
   * The result tells whether all assertions of the recursion held.
   */
  method BuildNodes(hash: NodeHash, a: array<Digest>, at: nat, len: nat, room: nat, layers: nat,
                    ghost pre: seq<Digest>, ghost v: seq<Digest>, ghost rest: seq<Digest>) returns (ok: bool)
    requires |pre| == at && |v| == len && |rest| >= room && a[..] == pre + v + rest
    modifies a
    ensures ok == AssertionsHold(len, room, layers)
    ensures ok ==> Built(hash, a[..], pre, v, rest, layers)
    decreases layers
  {
    hide Above;
    if layers == 0 {
      BuiltNothing(hash, pre, v, rest);
      return true;
    }
    if len % 2 != 0 || !PowerOfTwo(len / 2) || len != room {
      return false;
    }
    NodesKernel(hash, a, at, len, pre, v, rest);
    ok := BuildNodes(hash, a, at + len, len / 2, room - room / 2, layers - 1, pre + v, Above(hash, v), rest[len / 2..]);
    if ok {
      BuiltStep(hash, a[..], pre, v, rest, layers);
    }
  }
}
