// The two ways in which the node kernels keep the cells of a layer of digests.
module Layouts {
  import opened Field
  import opened Leaves

  /** The four cells of a digest next to each other, or the layer column by column. */
  datatype Layout = Adjacent | ByColumn

  /** Cell p of a sequence of digests. */
  function Cell(v: seq<Digest>, p: nat): Fp
    requires p < CAPACITY * |v|
  {
    v[p / CAPACITY][p % CAPACITY]
  }

  /** Where column c of a layer of n digests begins. */
  function ColumnStart(n: nat, c: nat): nat
  {
    if c == 0 then 0 else if c == 1 then n else if c == 2 then 2 * n else 3 * n
  }

  /** The place of cell c of digest h in a layer of n digests. */
  function CellIndex(layout: Layout, n: nat, h: nat, c: nat): (p: nat)
    requires h < n && c < CAPACITY
    ensures p < CAPACITY * n
  {
    match layout
    case Adjacent => CAPACITY * h + c
    case ByColumn => ColumnStart(n, c) + h
  }

  lemma CellIndexInjective(layout: Layout, n: nat, h: nat, c: nat, h': nat, c': nat)
    requires h < n && c < CAPACITY && h' < n && c' < CAPACITY
    requires CellIndex(layout, n, h, c) == CellIndex(layout, n, h', c')
    ensures h == h' && c == c'
  {
  }

  /** The column and the digest that a place belongs to. */
  function ColumnOf(layout: Layout, n: nat, p: nat): (c: nat)
    requires p < CAPACITY * n
    ensures c < CAPACITY
  {
    match layout
    case Adjacent => p % CAPACITY
    case ByColumn => if p < n then 0 else if p < 2 * n then 1 else if p < 3 * n then 2 else 3
  }

  function DigestOf(layout: Layout, n: nat, p: nat): (h: nat)
    requires p < CAPACITY * n
    ensures h < n
  {
    match layout
    case Adjacent => p / CAPACITY
    case ByColumn => p - ColumnStart(n, ColumnOf(layout, n, p))
  }

  lemma PlaceOfCell(layout: Layout, n: nat, p: nat)
    requires p < CAPACITY * n
    ensures CellIndex(layout, n, DigestOf(layout, n, p), ColumnOf(layout, n, p)) == p
  {
  }

  // ---- Layers ----

  /** Digest h as a kernel reads it from a stored layer. */
  function DigestSeen(layout: Layout, v: seq<Digest>, h: nat): Digest
    requires h < |v|
  {
    var n := |v|;
    [Cell(v, CellIndex(layout, n, h, 0)), Cell(v, CellIndex(layout, n, h, 1)),
     Cell(v, CellIndex(layout, n, h, 2)), Cell(v, CellIndex(layout, n, h, 3))]
  }

  /** The digests that a kernel sees in a stored layer. */
  function Seen(layout: Layout, v: seq<Digest>): (r: seq<Digest>)
    ensures |r| == |v|
  {
    seq<Digest>(|v|, h requires 0 <= h < |v| => DigestSeen(layout, v, h))
  }

  function CellStored(layout: Layout, v: seq<Digest>, p: nat): Fp
    requires p < CAPACITY * |v|
  {
    v[DigestOf(layout, |v|, p)][ColumnOf(layout, |v|, p)]
  }

  /** The cells of a layer as a kernel stores them, four to a digest. */
  function Stored(layout: Layout, v: seq<Digest>): (r: seq<Digest>)
    ensures |r| == |v|
  {
    seq<Digest>(|v|, q requires 0 <= q < |v| =>
      [CellStored(layout, v, CAPACITY * q), CellStored(layout, v, CAPACITY * q + 1),
       CellStored(layout, v, CAPACITY * q + 2), CellStored(layout, v, CAPACITY * q + 3)])
  }

  lemma CellOfSeen(layout: Layout, v: seq<Digest>, h: nat, c: nat)
    requires h < |v| && c < CAPACITY
    ensures Seen(layout, v)[h][c] == Cell(v, CellIndex(layout, |v|, h, c))
  {
    hide CellIndex, Cell;
  }

  lemma CellOfStored(layout: Layout, v: seq<Digest>, p: nat)
    requires p < CAPACITY * |v|
    ensures Cell(Stored(layout, v), p) == CellStored(layout, v, p)
  {
    hide CellStored;
    assert p == CAPACITY * (p / CAPACITY) + p % CAPACITY;
  }

  lemma SameDigest(a: Digest, b: Digest)
    requires forall c: nat :: c < CAPACITY ==> a[c] == b[c]
    ensures a == b
  {
  }

  /** What is stored is seen again. */
  lemma SeenStored(layout: Layout, v: seq<Digest>)
    ensures Seen(layout, Stored(layout, v)) == v
  {
    hide Seen, Stored, CellIndex, DigestOf, ColumnOf, Cell;
    var u := Stored(layout, v);
    forall h: nat | h < |v|
      ensures Seen(layout, u)[h] == v[h]
    {
      forall c: nat | c < CAPACITY
        ensures Seen(layout, u)[h][c] == v[h][c]
      {
        var p := CellIndex(layout, |v|, h, c);
        CellOfSeen(layout, u, h, c);
        CellOfStored(layout, v, p);
        PlaceOfCell(layout, |v|, p);
        CellIndexInjective(layout, |v|, h, c, DigestOf(layout, |v|, p), ColumnOf(layout, |v|, p));
      }
      SameDigest(Seen(layout, u)[h], v[h]);
    }
  }

  /** A layer is determined by the digests that are seen in it. */
  lemma StoredSeen(layout: Layout, u: seq<Digest>)
    ensures Stored(layout, Seen(layout, u)) == u
  {
    hide Seen, Stored, CellIndex, DigestOf, ColumnOf;
    var v := Seen(layout, u);
    forall q: nat | q < |u|
      ensures Stored(layout, v)[q] == u[q]
    {
      forall c: nat | c < CAPACITY
        ensures Stored(layout, v)[q][c] == u[q][c]
      {
        var p := CAPACITY * q + c;
        assert p / CAPACITY == q && p % CAPACITY == c;
        CellOfStored(layout, v, p);
        PlaceOfCell(layout, |u|, p);
        CellOfSeen(layout, u, DigestOf(layout, |u|, p), ColumnOf(layout, |u|, p));
      }
      SameDigest(Stored(layout, v)[q], u[q]);
    }
  }

  /** With adjacent cells a layer is seen as it is. */
  lemma SeenAdjacent(v: seq<Digest>)
    ensures Seen(Adjacent, v) == v && Stored(Adjacent, v) == v
  {
    hide Seen, Stored;
    forall h: nat | h < |v|
      ensures Seen(Adjacent, v)[h] == v[h]
    {
      forall c: nat | c < CAPACITY
        ensures Seen(Adjacent, v)[h][c] == v[h][c]
      {
        CellOfSeen(Adjacent, v, h, c);
        assert (CAPACITY * h + c) / CAPACITY == h && (CAPACITY * h + c) % CAPACITY == c;
      }
      SameDigest(Seen(Adjacent, v)[h], v[h]);
    }
    StoredSeen(Adjacent, v);
  }

  // ---- Storing one digest ----

  function WithCell(v: seq<Digest>, p: nat, x: Fp): (r: seq<Digest>)
    requires p < CAPACITY * |v|
    ensures |r| == |v|
  {
    v[p / CAPACITY := v[p / CAPACITY][p % CAPACITY := x]]
  }

  lemma CellOfWithCell(v: seq<Digest>, p: nat, x: Fp, q: nat)
    requires p < CAPACITY * |v| && q < CAPACITY * |v|
    ensures Cell(WithCell(v, p, x), q) == if q == p then x else Cell(v, q)
  {
    assert q == CAPACITY * (q / CAPACITY) + q % CAPACITY && p == CAPACITY * (p / CAPACITY) + p % CAPACITY;
  }

  /** The layer with the first c cells of digest h replaced. */
  function WithCells(layout: Layout, v: seq<Digest>, h: nat, x: Digest, c: nat): (r: seq<Digest>)
    requires h < |v| && c <= CAPACITY
    ensures |r| == |v|
  {
    if c == 0 then v else WithCell(WithCells(layout, v, h, x, c - 1), CellIndex(layout, |v|, h, c - 1), x[c - 1])
  }

  lemma {:induction false} SeenWithCells(layout: Layout, v: seq<Digest>, h: nat, x: Digest, c: nat, h': nat, c': nat)
    requires h < |v| && c <= CAPACITY && h' < |v| && c' < CAPACITY
    ensures Seen(layout, WithCells(layout, v, h, x, c))[h'][c']
         == if h' == h && c' < c then x[c'] else Seen(layout, v)[h'][c']
  {
    hide Seen, CellIndex, WithCell;
    CellOfSeen(layout, WithCells(layout, v, h, x, c), h', c');
    if c > 0 {
      var u := WithCells(layout, v, h, x, c - 1);
      SeenWithCells(layout, v, h, x, c - 1, h', c');
      CellOfSeen(layout, u, h', c');
      CellOfWithCell(u, CellIndex(layout, |v|, h, c - 1), x[c - 1], CellIndex(layout, |v|, h', c'));
      if CellIndex(layout, |v|, h', c') == CellIndex(layout, |v|, h, c - 1) {
        CellIndexInjective(layout, |v|, h', c', h, c - 1);
      }
    }
  }

  /** With all its cells replaced, digest h has changed and no other one has. */
  lemma SeenReplaced(layout: Layout, v: seq<Digest>, h: nat, x: Digest)
    requires h < |v|
    ensures Seen(layout, WithCells(layout, v, h, x, CAPACITY)) == Seen(layout, v)[h := x]
  {
    hide Seen, WithCells;
    var u := WithCells(layout, v, h, x, CAPACITY);
    forall h': nat | h' < |v|
      ensures Seen(layout, u)[h'] == Seen(layout, v)[h := x][h']
    {
      forall c: nat | c < CAPACITY
        ensures Seen(layout, u)[h'][c] == Seen(layout, v)[h := x][h'][c]
      {
        SeenWithCells(layout, v, h, x, CAPACITY, h', c);
      }
      SameDigest(Seen(layout, u)[h'], Seen(layout, v)[h := x][h']);
    }
  }

  // ---- Where the layouts differ ----

  /** The layer of n digests in which only cell p is one. */
  function OneCell(n: nat, p: nat): (v: seq<Digest>)
    ensures |v| == n
  {
    seq<Digest>(n, q requires 0 <= q < n => OneInDigest(CAPACITY * q, p))
  }

  function OneInDigest(first: nat, p: nat): Digest
  {
    [if p == first then 1 else 0, if p == first + 1 then 1 else 0,
     if p == first + 2 then 1 else 0, if p == first + 3 then 1 else 0]
  }

  lemma CellOfOneCell(n: nat, p: nat, at: nat)
    requires at < CAPACITY * n
    ensures Cell(OneCell(n, p), at) == if at == p then 1 else 0
  {
    assert at == CAPACITY * (at / CAPACITY) + at % CAPACITY;
  }

  /**
   * Layers of n digests that were stored with adjacent cells are always seen as they are exactly when n is at most one.
   */
  lemma SeenAsIsExactly(layout: Layout, n: nat)
    ensures (forall v: seq<Digest> :: |v| == n ==> Seen(layout, v) == v) <==> layout == Adjacent || n <= 1
  {
    if layout == Adjacent {
      forall v: seq<Digest> | |v| == n
        ensures Seen(layout, v) == v
      {
        SeenAdjacent(v);
      }
    } else if n <= 1 {
      forall v: seq<Digest> | |v| == n
        ensures Seen(layout, v) == v
      {
        if n == 1 {
          SameDigest(Seen(layout, v)[0], v[0]);
        }
      }
    } else {
      var v := OneCell(n, n);
      var h, c: nat := 0, 1;
      CellOfSeen(layout, v, h, c);
      CellOfOneCell(n, n, n);
      CellOfOneCell(n, n, c);
      assert Cell(v, c) == v[0][c];
      assert Seen(layout, v)[0][c] != v[0][c];
    }
  }
}
