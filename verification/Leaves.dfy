// Hashing one row of values per leaf: the single-thread leaves kernel.
module Leaves {
  import opened Field
  import opened Bits

  const RATE: nat := 8
  const CAPACITY: nat := 4
  const STATE_WIDTH: nat := 12

  type State = s: seq<Fp> | |s| == STATE_WIDTH witness [0, 0, 0, 0, 0, 0, 0, 0, 0, 0, 0, 0]
  type Digest = s: seq<Fp> | |s| == CAPACITY witness [0, 0, 0, 0]

  const ZERO_STATE: State := [0, 0, 0, 0, 0, 0, 0, 0, 0, 0, 0, 0]

  /** The Poseidon permutation; nothing is assumed about it. */
  type Permutation = State -> State

  // ---- Specification ----

  function Overwrite(s: State, values: seq<Fp>): State
    requires |values| <= RATE
  {
    values + s[|values|..]
  }

  function Round(perm: Permutation, hash: bool, s: State, values: seq<Fp>): State
    requires |values| <= RATE
  {
    if hash then perm(Overwrite(s, values)) else Overwrite(s, values)
  }

  /** The state after all values, in rounds of RATE; short rows are stored without hashing (`hash` is false). */
  function AbsorbRow(perm: Permutation, hash: bool, s: State, values: seq<Fp>): State
    decreases |values|
  {
    if values == [] then s
    else if |values| <= RATE then Round(perm, hash, s, values)
    else AbsorbRow(perm, hash, Round(perm, hash, s, values[..RATE]), values[RATE..])
  }

  /** One round: the values take the place of the first elements, in their order, and the state is permuted or not. */
  lemma OneRound(perm: Permutation, hash: bool, s: State, values: seq<Fp>)
    requires 0 < |values| <= 8
    ensures AbsorbRow(perm, hash, s, values) == if hash then perm(values + s[|values|..]) else values + s[|values|..]
  {
  }

  /** Longer rows are absorbed eight by eight. */
  lemma RoundByRound(perm: Permutation, hash: bool, s: State, a: seq<Fp>, b: seq<Fp>)
    requires |a| == 8
    ensures AbsorbRow(perm, hash, s, []) == s
    ensures AbsorbRow(perm, hash, s, a + b) == AbsorbRow(perm, hash, if hash then perm(a + s[8..]) else a + s[8..], b)
  {
    MultipleProduct(1, RATE);
    AbsorbRowSplit(perm, hash, s, a, b);
  }

  /** A row cut at a round boundary can be absorbed in two parts. */
  lemma {:induction false} AbsorbRowSplit(perm: Permutation, hash: bool, s: State, a: seq<Fp>, b: seq<Fp>)
    requires Multiple(|a|, RATE)
    ensures AbsorbRow(perm, hash, s, a + b) == AbsorbRow(perm, hash, AbsorbRow(perm, hash, s, a), b)
    decreases |a|
  {
    if a == [] {
      assert a + b == b;
    } else {
      var next := Round(perm, hash, s, a[..RATE]);
      assert (a + b)[..RATE] == a[..RATE] && (a + b)[RATE..] == a[RATE..] + b;
      AbsorbRowSplit(perm, hash, next, a[RATE..], b);
      if |a| == RATE {
        assert a[..RATE] == a;
        assert AbsorbRow(perm, hash, next, a[RATE..]) == next;
      }
      if |a + b| == RATE {
        assert b == [] && a + b == a;
      }
    }
  }

  function LeafDigest(s: State): Digest
  {
    s[..CAPACITY]
  }

  /** `v` consists of `num` columns of length `n`. */
  ghost predicate HasColumns(v: seq<Fp>, n: nat, num: nat)
  {
    if num == 0 then v == [] else |v| >= n && HasColumns(v[n..], n, num - 1)
  }

  lemma {:induction false} ColumnsLength(v: seq<Fp>, n: nat, num: nat)
    ensures HasColumns(v, n, num) <==> |v| == num * n
    decreases num
  {
    if num > 0 {
      Peel(num, n);
      if |v| >= n {
        ColumnsLength(v[n..], n, num - 1);
      }
    }
  }

  /** The values of one leaf: from every column of length `stride`, the `rows` values from `at` on. */
  function LeafValues(v: seq<Fp>, stride: nat, at: nat, rows: nat): seq<Fp>
    requires at + rows <= stride && stride > 0
  {
    if |v| < stride then [] else v[at..at + rows] + LeafValues(v[stride..], stride, at, rows)
  }

  lemma {:induction false} LeafValuesLength(v: seq<Fp>, stride: nat, at: nat, rows: nat, cols: nat)
    requires at + rows <= stride && stride > 0 && |v| == cols * stride
    ensures |LeafValues(v, stride, at, rows)| == cols * rows
  {
    if cols > 0 {
      Peel(cols, stride);
      Peel(cols, rows);
      LeafValuesLength(v[stride..], stride, at, rows, cols - 1);
    }
  }

  lemma Peel(n: nat, d: nat)
    requires n > 0
    ensures n * d == d + (n - 1) * d >= d
  {
    assert (n - 1) * d >= 0;
  }

  function Address(col: nat, stride: nat, at: nat, row: nat): nat
  {
    Product(col, stride) + at + row
  }

  function Product(a: nat, b: nat): nat
  {
    a * b
  }

  lemma NextProduct(a: nat, b: nat)
    requires a > 0
    ensures Product(a, b) == b + Product(a - 1, b)
  {
  }

  lemma ZeroProduct(b: nat)
    ensures Product(0, b) == 0
  {
  }

  /** The kernel's addressing: value o of a leaf is in row o % rows of column o / rows. */
  lemma {:induction false} LeafValueAt(v: seq<Fp>, stride: nat, at: nat, rows: nat, cols: nat, row: nat, col: nat)
    requires at + rows <= stride && stride > 0 && |v| == Product(cols, stride) && row < rows && col < cols
    ensures Product(col, rows) + row < |LeafValues(v, stride, at, rows)|
    ensures Address(col, stride, at, row) < |v|
    ensures LeafValues(v, stride, at, rows)[Product(col, rows) + row] == v[Address(col, stride, at, row)]
  {
    hide Product;
    NextProduct(cols, stride);
    if col > 0 {
      NextProduct(col, rows);
      NextProduct(col, stride);
      LeafValueAt(v[stride..], stride, at, rows, cols - 1, row, col - 1);
      assert v[stride..][Address(col - 1, stride, at, row)] == v[Address(col, stride, at, row)];
    } else {
      ZeroProduct(rows);
      ZeroProduct(stride);
    }
  }

  // ---- The kernel ----

  lemma OffsetSplit(o: nat, rows: nat, cols: nat)
    requires rows > 0
    ensures o == (o / rows) * rows + o % rows
    ensures o / rows < cols <==> o < cols * rows
  {
    assert o == rows * (o / rows) + o % rows;
    if o / rows < cols {
      MultipleAtLeast(cols - o / rows, rows);
      assert (cols - o / rows) * rows == cols * rows - (o / rows) * rows;
    } else {
      MultipleAtLeast(o / rows - cols + 1, rows);
      assert (o / rows - cols + 1) * rows == (o / rows) * rows - cols * rows + rows;
    }
  }

  /** The leaf read at `at` from `cols` columns of length `stride`. */
  ghost predicate IsLeafRow(row: seq<Fp>, v: seq<Fp>, stride: nat, at: nat, rows: nat, cols: nat)
  {
    && rows > 0 && at + rows <= stride && |v| == cols * stride
    && row == LeafValues(v, stride, at, rows) && |row| == cols * rows
  }

  lemma LeafElement(row: seq<Fp>, v: seq<Fp>, stride: nat, at: nat, rows: nat, cols: nat, o: nat)
    requires IsLeafRow(row, v, stride, at, rows, cols) && o < |row|
    ensures Address(o / rows, stride, at, o % rows) < |v|
    ensures v[Address(o / rows, stride, at, o % rows)] == row[o]
  {
    OffsetSplit(o, rows, cols);
    LeafValueAt(v, stride, at, rows, cols, o % rows, o / rows);
  }

  /** One load of the kernel, `values + row + col * rows_count * count` from the thread's start. */
  method LoadValue(values: array<Fp>, base: nat, stride: nat, at: nat, rows: nat, ghost cols: nat, o: nat,
                   ghost v: seq<Fp>, ghost row: seq<Fp>) returns (x: Fp)
    requires base + |v| <= values.Length && v == values[base..base + |v|]
    requires IsLeafRow(row, v, stride, at, rows, cols) && o < |row|
    ensures x == row[o]
  {
    LeafElement(row, v, stride, at, rows, cols, o);
    x := values[base + Address(o / rows, stride, at, o % rows)];
  }

  function Chunk(row: seq<Fp>, offset: nat, length: nat): (r: seq<Fp>)
    requires offset <= |row|
    ensures |r| <= length
  {
    row[offset..if offset + length <= |row| then offset + length else |row|]
  }

  /** One value more of a round. */
  lemma OneLoaded(before: State, row: seq<Fp>, offset: nat, i: nat)
    requires i < RATE && offset + i < |row|
    ensures Overwrite(before, Chunk(row, offset, i))[i := row[offset + i]]
         == Overwrite(before, Chunk(row, offset, i + 1))
  {
    assert Chunk(row, offset, i + 1) == Chunk(row, offset, i) + [row[offset + i]];
  }

  lemma NothingLoaded(before: State, row: seq<Fp>, offset: nat)
    requires offset <= |row|
    ensures |Chunk(row, offset, 0)| == 0 && Overwrite(before, Chunk(row, offset, 0)) == before
  {
  }

  lemma NoneLeft(row: seq<Fp>, offset: nat, i: nat)
    requires offset <= |row| <= offset + i
    ensures Chunk(row, offset, i + 1) == Chunk(row, offset, i)
  {
  }

  /** The inner loop: RATE positions of the state overwritten, or kept once the columns are used up. */
  method LoadRound(values: array<Fp>, base: nat, stride: nat, at: nat, rows: nat, cols: nat, offset: nat, before: State,
                   ghost v: seq<Fp>, ghost row: seq<Fp>) returns (state: State)
    requires base + |v| <= values.Length && v == values[base..base + |v|]
    requires IsLeafRow(row, v, stride, at, rows, cols) && offset <= |row|
    ensures state == Overwrite(before, Chunk(row, offset, RATE))
  {
    hide LeafValues, Chunk, Overwrite;
    state := before;
    NothingLoaded(before, row, offset);
    for i: nat := 0 to RATE
      invariant state == Overwrite(before, Chunk(row, offset, i))
    {
      OffsetSplit(offset + i, rows, cols);
      if (offset + i) / rows < cols {
        var x := LoadValue(values, base, stride, at, rows, cols, offset + i, v, row);
        state := state[i := x];
        OneLoaded(before, row, offset, i);
      } else {
        NoneLeft(row, offset, i);
      }
    }
  }

  lemma RoundDone(perm: Permutation, hash: bool, before: State, row: seq<Fp>, offset: nat)
    requires offset < |row|
    ensures AbsorbRow(perm, hash, before, row[offset..])
         == AbsorbRow(perm, hash, Round(perm, hash, before, Chunk(row, offset, RATE)),
                      row[offset + |Chunk(row, offset, RATE)|..])
  {
    var rest := row[offset..];
    if |rest| <= RATE {
      assert Chunk(row, offset, RATE) == rest;
      assert row[offset + |rest|..] == [];
    } else {
      assert Chunk(row, offset, RATE) == rest[..RATE];
      assert row[offset + RATE..] == rest[RATE..];
    }
  }

  /** One thread of `single_thread_leaves_impl`, for the leaf at `at`, starting from the state `init`. */
  method LeafThread(perm: Permutation, hash: bool, values: array<Fp>, base: nat, stride: nat, at: nat, rows: nat,
                    cols: nat, init: State, ghost v: seq<Fp>, ghost row: seq<Fp>) returns (state: State)
    requires base + |v| <= values.Length && v == values[base..base + |v|]
    requires IsLeafRow(row, v, stride, at, rows, cols)
    ensures state == AbsorbRow(perm, hash, init, row)
    ensures 0 < |row| <= 8 ==> state == if hash then perm(row + init[|row|..]) else row + init[|row|..]
  {
    state := init;
    var total, offset: nat := rows * cols, 0;
    assert total == |row| && row[0..] == row;
    while offset < total
      invariant AbsorbRow(perm, hash, state, if offset <= total then row[offset..] else [])
                == AbsorbRow(perm, hash, init, row)
    {
      RoundDone(perm, hash, state, row, offset);
      state := LoadRound(values, base, stride, at, rows, cols, offset, state, v, row);
      if hash {
        state := perm(state);
      }
      offset := offset + RATE;
    }
  }
}
