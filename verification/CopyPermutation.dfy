// The pipeline that builds the copy permutation: number, sort, encode, scan, mark, scan, scatter.
module CopyPermutation {
  import opened Field
  import opened Bits
  import opened Roots
  import opened Scans
  import opened Runs
  import opened CopyCycles

  // ---- What the sorted and encoded cells say about the variables ----

  /** `order` lists the cells stably sorted by variable, `keys` their variables. */
  ghost predicate SortedCells(vars: seq<nat>, order: seq<nat>, keys: seq<nat>)
  {
    && StableOrder(vars, order, |vars|) && |keys| == |vars|
    && (forall p :: 0 <= p < |keys| ==> keys[p] == vars[order[p]])
  }

  lemma KeysAscend(vars: seq<nat>, order: seq<nat>, keys: seq<nat>, p: nat, q: nat)
    requires SortedCells(vars, order, keys) && p <= q < |keys|
    ensures keys[p] <= keys[q]
    ensures keys[p] == keys[q] && p < q ==> order[p] < order[q]
  {
    if p < q {
      assert Before(vars, order[p], order[q]);
    }
  }

  lemma SumStep(s: seq<nat>, i: nat)
    requires i < |s|
    ensures i > 0 ==> Sum(s, i) == Sum(s, i - 1) + s[i - 1]
    ensures i == 0 ==> Sum(s, i) == 0
  {
  }

  /** A key that differs from the one before is greater than all before it. */
  lemma KeysBefore(vars: seq<nat>, order: seq<nat>, keys: seq<nat>, q: nat, start: nat)
    requires SortedCells(vars, order, keys) && q < start < |keys| && keys[start - 1] != keys[start]
    ensures keys[q] < keys[start]
  {
    hide SortedCells;
    KeysAscend(vars, order, keys, q, start - 1);
    KeysAscend(vars, order, keys, start - 1, start);
  }

  lemma KeysBehind(vars: seq<nat>, order: seq<nat>, keys: seq<nat>, end: nat, q: nat)
    requires SortedCells(vars, order, keys) && 0 < end <= q < |keys| && keys[end - 1] != keys[end]
    ensures keys[end - 1] < keys[q]
  {
    hide SortedCells;
    KeysAscend(vars, order, keys, end - 1, end);
    KeysAscend(vars, order, keys, end, q);
  }

  /** The keys of a run, and those around it. */
  lemma RunKeys(keys: seq<nat>, unique: seq<nat>, lengths: seq<nat>, runs: nat, r: nat, start: nat, end: nat)
    requires Encoded(keys, unique, lengths, runs) && r < runs
    requires start == Sum(lengths, r) && end == Sum(lengths, r) + lengths[r]
    ensures start < end <= |keys| && keys[start] == keys[end - 1] == unique[r]
    ensures start > 0 ==> keys[start - 1] != unique[r]
    ensures end < |keys| ==> keys[end] != unique[r]
  {
    assert IsRun(keys, unique, lengths, r);
    SumStep(lengths, r);
    if r > 0 {
      assert IsRun(keys, unique, lengths, r - 1);
    }
    hide Sum;
  }

  lemma RunMember(keys: seq<nat>, unique: seq<nat>, lengths: seq<nat>, runs: nat, r: nat, q: nat)
    requires Encoded(keys, unique, lengths, runs) && r < runs
    requires Sum(lengths, r) <= q < Sum(lengths, r) + lengths[r]
    ensures q < |keys| && keys[q] == unique[r]
  {
    assert IsRun(keys, unique, lengths, r);
  }

  /** Run r holds all positions with its variable. */
  lemma RunIsClass(vars: seq<nat>, order: seq<nat>, keys: seq<nat>, unique: seq<nat>, lengths: seq<nat>, runs: nat,
                   r: nat, q: nat)
    requires SortedCells(vars, order, keys) && Encoded(keys, unique, lengths, runs) && r < runs && q < |keys|
    ensures Sum(lengths, r) + lengths[r] <= |keys|
    ensures keys[q] == unique[r] <==> Sum(lengths, r) <= q < Sum(lengths, r) + lengths[r]
  {
    var start, end := Sum(lengths, r), Sum(lengths, r) + lengths[r];
    RunKeys(keys, unique, lengths, runs, r, start, end);
    if q < start {
      KeysBefore(vars, order, keys, q, start);
    } else if q >= end {
      KeysBehind(vars, order, keys, end, q);
    } else {
      RunMember(keys, unique, lengths, runs, r, q);
    }
    hide Sum, SortedCells, Encoded;
  }

  /** The position of a cell in the order. */
  lemma PositionOf(vars: seq<nat>, order: seq<nat>, c: nat) returns (p: nat)
    requires StableOrder(vars, order, |vars|) && c < |vars|
    ensures p < |vars| && order[p] == c
  {
    assert c in order;
    p :| p < |order| && order[p] == c;
  }

  /** Between neighbours in a run there is no cell with their variable. */
  lemma NoneBetween(vars: seq<nat>, order: seq<nat>, keys: seq<nat>, p: nat, q: nat)
    requires SortedCells(vars, order, keys) && p + 1 < |vars| && q < |vars| && keys[p + 1] == keys[p] == keys[q]
    ensures order[q] <= order[p] || order[q] >= order[p + 1]
  {
    if q <= p {
      KeysAscend(vars, order, keys, q, p);
    } else {
      KeysAscend(vars, order, keys, p + 1, q);
    }
  }

  /** Inside a run the next position holds the next cell with the same variable. */
  lemma NextInRun(vars: seq<nat>, order: seq<nat>, keys: seq<nat>, p: nat)
    requires SortedCells(vars, order, keys) && p + 1 < |vars| && keys[p + 1] == keys[p]
    ensures FirstFrom(vars, keys[p], order[p] + 1) == order[p + 1]
  {
    KeysAscend(vars, order, keys, p, p + 1);
    var d := FirstFrom(vars, keys[p], order[p] + 1);
    assert d <= order[p + 1];
    var q := PositionOf(vars, order, d);
    NoneBetween(vars, order, keys, p, q);
  }

  /** The positions with variable `x` are those from `first` to `last`. */
  ghost predicate IsClass(keys: seq<nat>, x: nat, first: nat, last: nat)
  {
    first <= last < |keys| && forall q: nat :: q < |keys| ==> (keys[q] == x <==> first <= q <= last)
  }

  /** The last position of a run holds the last cell with its variable. */
  lemma LastOfClass(vars: seq<nat>, order: seq<nat>, keys: seq<nat>, x: nat, first: nat, last: nat)
    requires SortedCells(vars, order, keys) && IsClass(keys, x, first, last)
    ensures FirstFrom(vars, x, order[last] + 1) == |vars|
  {
    var d := FirstFrom(vars, x, order[last] + 1);
    if d < |vars| {
      var q := PositionOf(vars, order, d);
      KeysAscend(vars, order, keys, q, last);
    }
  }

  /** The first position of a run holds the first cell with its variable. */
  lemma FirstOfClass(vars: seq<nat>, order: seq<nat>, keys: seq<nat>, x: nat, first: nat, last: nat)
    requires SortedCells(vars, order, keys) && IsClass(keys, x, first, last)
    ensures FirstFrom(vars, x, 0) == order[first]
  {
    var e := FirstFrom(vars, x, 0);
    assert keys[first] == x;
    var q := PositionOf(vars, order, e);
    KeysAscend(vars, order, keys, first, q);
  }

  lemma RunClass(vars: seq<nat>, order: seq<nat>, keys: seq<nat>, unique: seq<nat>, lengths: seq<nat>, runs: nat,
                 r: nat)
    requires SortedCells(vars, order, keys) && Encoded(keys, unique, lengths, runs) && r < runs
    ensures lengths[r] > 0 && IsClass(keys, unique[r], Sum(lengths, r), Sum(lengths, r) + lengths[r] - 1)
  {
    assert IsRun(keys, unique, lengths, r);
    forall q: nat | q < |keys|
      ensures keys[q] == unique[r] <==> Sum(lengths, r) <= q <= Sum(lengths, r) + lengths[r] - 1
    {
      RunIsClass(vars, order, keys, unique, lengths, runs, r, q);
    }
  }

  /** What the last kernel computes for position p of run r. */
  function TargetPosition(start: nat, length: nat, placeholder: bool, p: nat): nat
    requires start <= p < start + length
  {
    start + if placeholder then p - start else (p - start + 1) % length
  }

  lemma TargetInRun(start: nat, length: nat, p: nat)
    requires start <= p < start + length
    ensures TargetPosition(start, length, false, p) == if p + 1 < start + length then p + 1 else start
    ensures TargetPosition(start, length, true, p) == p
  {
  }

  /** The kernel recognises exactly the fixed cells. */
  lemma PlaceholderRecognised(vars: seq<nat>, order: seq<nat>, keys: seq<nat>, unique: seq<nat>, lengths: seq<nat>,
                              runs: nat, r: nat, last: nat, p: nat)
    requires SortedCells(vars, order, keys) && Encoded(keys, unique, lengths, runs) && r < runs && last < runs &&
             p < |vars|
    requires Sum(lengths, r) <= p < Sum(lengths, r) + lengths[r]
    requires Sum(lengths, last) <= |vars| - 1 < Sum(lengths, last) + lengths[last]
    ensures r == last && unique[last] == PLACEHOLDER <==> Fixed(vars, order[p])
  {
    hide Sum;
    var n := |vars|;
    RunIsClass(vars, order, keys, unique, lengths, runs, r, p);
    RunIsClass(vars, order, keys, unique, lengths, runs, last, n - 1);
    RunIsClass(vars, order, keys, unique, lengths, runs, r, n - 1);
    KeysAscend(vars, order, keys, p, n - 1);
    if unique[last] == PLACEHOLDER {
      forall c | 0 <= c < n
        ensures vars[c] <= PLACEHOLDER
      {
        var q := PositionOf(vars, order, c);
        KeysAscend(vars, order, keys, q, n - 1);
      }
    }
    if r != last && keys[p] == keys[n - 1] {
      SameRun(lengths, r, last, n - 1);
    }
  }

  lemma RunsApart(lengths: seq<nat>, r: nat, r': nat, p: nat)
    requires r < r' < |lengths| && p < Sum(lengths, r) + lengths[r]
    ensures p < Sum(lengths, r')
  {
    var next: nat := r + 1;
    assert Sum(lengths, next) == Sum(lengths, r) + lengths[r];
    SumMonotone(lengths, next, r');
  }

  lemma SameRun(lengths: seq<nat>, r: nat, r': nat, p: nat)
    requires r < |lengths| && r' < |lengths|
    requires Sum(lengths, r) <= p < Sum(lengths, r) + lengths[r]
    requires Sum(lengths, r') <= p < Sum(lengths, r') + lengths[r']
    ensures r == r'
  {
    if r < r' {
      RunsApart(lengths, r, r', p);
    } else if r' < r {
      RunsApart(lengths, r', r, p);
    }
  }

  /** The scatter of the last kernel follows the permutation. */
  lemma TargetIsNext(vars: seq<nat>, order: seq<nat>, keys: seq<nat>, unique: seq<nat>, lengths: seq<nat>, runs: nat,
                     r: nat, last: nat, p: nat, target: nat)
    requires SortedCells(vars, order, keys) && Encoded(keys, unique, lengths, runs) && r < runs && last < runs &&
             p < |vars|
    requires Sum(lengths, r) <= p < Sum(lengths, r) + lengths[r]
    requires Sum(lengths, last) <= |vars| - 1 < Sum(lengths, last) + lengths[last]
    requires target == TargetPosition(Sum(lengths, r), lengths[r], r == last && unique[last] == PLACEHOLDER, p)
    ensures target < |vars| && order[target] == Next(vars, order[p])
  {
    var start, end := Sum(lengths, r), Sum(lengths, r) + lengths[r];
    PlaceholderRecognised(vars, order, keys, unique, lengths, runs, r, last, p);
    TargetInRun(start, lengths[r], p);
    RunIsClass(vars, order, keys, unique, lengths, runs, r, p);
    if !Fixed(vars, order[p]) {
      if p + 1 < end {
        RunIsClass(vars, order, keys, unique, lengths, runs, r, p + 1);
        NextInRun(vars, order, keys, p);
      } else {
        RunClass(vars, order, keys, unique, lengths, runs, r);
        LastOfClass(vars, order, keys, unique[r], start, p);
        FirstOfClass(vars, order, keys, unique[r], start, p);
      }
    }
  }

  // ---- The last kernel ----

  function Row(cell: nat, rows: nat): nat
    requires rows > 0
  {
    cell % rows
  }

  function Column(cell: nat, rows: nat): nat
    requires rows > 0
  {
    cell / rows
  }

  /** The identity of a cell: the power of the row root that its row stands for, times the scalar of its column. */
  function Label(scalars: seq<Fp>, rowRoot: Fp, rows: nat, cell: nat): Fp
    requires rows > 0 && Column(cell, rows) < |scalars|
  {
    Mul(Pow(rowRoot, Row(cell, rows)), scalars[Column(cell, rows)])
  }

  /** `get_power_of_w` looks a power up in tables for a root of order 2^order. */
  lemma PowerOfW(order: nat, shift: nat, row: nat)
    requires shift <= order <= 32
    ensures Pow(Root(order), row * Pow2(shift)) == Pow(Root(order - shift), row)
  {
    RootPow(order, shift);
    PowMul(Root(order), Pow2(shift), row);
    assert row * Pow2(shift) == Pow2(shift) * row;
  }

  /** The value one thread stores. */
  method CellLabel(scalars: array<Fp>, order: nat, shift: nat, rows: nat, cell: nat) returns (x: Fp)
    requires shift <= order <= 32 && rows > 0 && cell < scalars.Length * rows
    ensures Column(cell, rows) < scalars.Length && x == Label(scalars[..], Root(order - shift), rows, cell)
  {
    QuotientBelow(cell, rows, scalars.Length);
    PowerOfW(order, shift, Row(cell, rows));
    var twiddle := Pow(Root(order), Row(cell, rows) * Pow2(shift));
    x := Mul(twiddle, scalars[Column(cell, rows)]);
  }

  /** The tables the last kernel reads, as the scans leave them. */
  ghost predicate Tables(vars: seq<nat>, order: seq<nat>, keys: seq<nat>, unique: seq<nat>, lengths: seq<nat>,
                         runs: nat, offsets: seq<nat>, runIndexes: seq<nat>)
  {
    && SortedCells(vars, order, keys) && Encoded(keys, unique, lengths, runs)
    && |offsets| == |runIndexes| == |vars| && |unique| == |lengths| == |vars|
    && (forall r: nat :: r < |vars| ==> offsets[r] == Sum(lengths, r))
    && (forall p: nat :: p < |vars| ==> InRun(lengths, runs, runIndexes[p], p))
  }

  ghost predicate InRun(lengths: seq<nat>, runs: nat, r: nat, p: nat)
  {
    r < runs <= |lengths| && Sum(lengths, r) <= p < Sum(lengths, r) + lengths[r]
  }

  /** One thread: the cell it comes from and the cell it stores to. */
  method Target(unique: array<nat>, runIndexes: array<nat>, lengths: array<nat>, offsets: array<nat>, cells: array<nat>,
                gid: nat, ghost vars: seq<nat>, ghost order: seq<nat>, ghost keys: seq<nat>, ghost runs: nat)
    returns (src: nat, dst: nat)
    requires Tables(vars, order, keys, unique[..], lengths[..], runs, offsets[..], runIndexes[..])
    requires cells[..] == order && gid < |vars|
    ensures src == order[gid] && dst == Next(vars, src)
  {
    var last := runIndexes[cells.Length - 1];
    var run := runIndexes[gid];
    assert InRun(lengths[..], runs, run, gid) && InRun(lengths[..], runs, last, |vars| - 1);
    var isPlaceholder := run == last && unique[last] == PLACEHOLDER;
    var srcInRun := gid - offsets[run];
    var dstInRun := if isPlaceholder then srcInRun else (srcInRun + 1) % lengths[run];
    TargetIsNext(vars, order, keys, unique[..], lengths[..], runs, run, last, gid, offsets[run] + dstInRun);
    src := cells[offsets[run] + srcInRun];
    dst := cells[offsets[run] + dstInRun];
  }

  /** Different threads store to different cells. */
  lemma StoresApart(vars: seq<nat>, order: seq<nat>, p: nat, q: nat)
    requires StableOrder(vars, order, |vars|) && p < q < |vars|
    ensures Next(vars, order[p]) != Next(vars, order[q])
  {
    assert Before(vars, order[p], order[q]);
    NextIsBijective(vars, order[p]);
    NextIsBijective(vars, order[q]);
  }

  /** The cell that follows c carries the identity of c. */
  ghost predicate Labelled(vars: seq<nat>, scalars: seq<Fp>, rowRoot: Fp, rows: nat, result: seq<Fp>, c: nat)
    requires c < |vars| == |result| && rows > 0
  {
    Column(c, rows) < |scalars| && result[Next(vars, c)] == Label(scalars, rowRoot, rows, c)
  }

  /** `generate_permutation_matrix_kernel`. */
  method Scatter(unique: array<nat>, runIndexes: array<nat>, lengths: array<nat>, offsets: array<nat>,
                 cells: array<nat>, scalars: array<Fp>, result: array<Fp>, rootOrder: nat, shift: nat, rows: nat,
                 ghost rowRoot: Fp, ghost vars: seq<nat>, ghost order: seq<nat>, ghost keys: seq<nat>, ghost runs: nat)
    requires Tables(vars, order, keys, unique[..], lengths[..], runs, offsets[..], runIndexes[..]) && cells[..] == order
    requires shift <= rootOrder <= 32 && rowRoot == Root(rootOrder - shift) && rows > 0 &&
             |vars| == scalars.Length * rows && result.Length == |vars|
    requires scalars != result
    modifies result
    ensures forall c: nat :: c < |vars| ==> Labelled(vars, scalars[..], rowRoot, rows, result[..], c)
  {
    for gid: nat := 0 to cells.Length
      invariant forall p: nat :: p < gid ==> Labelled(vars, scalars[..], rowRoot, rows, result[..], order[p])
    {
      var src, dst := Target(unique, runIndexes, lengths, offsets, cells, gid, vars, order, keys, runs);
      var x := CellLabel(scalars, rootOrder, shift, rows, src);
      forall p: nat | p < gid
        ensures Next(vars, order[p]) != dst
      {
        StoresApart(vars, order, p, gid);
      }
      result[dst] := x;
    }
    forall c: nat | c < |vars|
      ensures Labelled(vars, scalars[..], rowRoot, rows, result[..], c)
    {
      var p := PositionOf(vars, order, c);
    }
  }

  /** The cell after the next cell of a column carries the row root times what the cell after this one carries. */
  ghost predicate IdentityStep(vars: seq<nat>, rowRoot: Fp, result: seq<Fp>, cell: nat)
    requires |vars| == |result|
  {
    cell + 1 < |vars| && result[Next(vars, cell + 1)] == rowRoot * result[Next(vars, cell)] % P
  }

  /**
   * What the cells after those of column c carry: the scalar of the column at first, then one power after the other.
   */
  ghost predicate ColumnIdentities(vars: seq<nat>, scalars: seq<Fp>, rowRoot: Fp, rows: nat, result: seq<Fp>, c: nat)
    requires c < |scalars| && rows > 0 && |vars| == |result|
  {
    var first := c * rows;
    && first < |vars| && result[Next(vars, first)] == scalars[c]
    && forall cell: nat :: first <= cell < first + rows - 1 ==> IdentityStep(vars, rowRoot, result, cell)
  }

  lemma FirstLabel(scalars: seq<Fp>, rowRoot: Fp, rows: nat, c: nat, first: nat)
    requires c < |scalars| && rows > 0 && first == c * rows
    ensures Column(first, rows) == c && Label(scalars, rowRoot, rows, first) == scalars[c]
  {
    DivModUnique(first, rows, c, 0);
    MulOne(scalars[c]);
  }

  lemma NextLabel(scalars: seq<Fp>, rowRoot: Fp, rows: nat, c: nat, cell: nat)
    requires c < |scalars| && rows > 0 && c * rows <= cell < c * rows + rows - 1
    ensures Column(cell, rows) == Column(cell + 1, rows) == c
    ensures Label(scalars, rowRoot, rows, cell + 1) == rowRoot * Label(scalars, rowRoot, rows, cell) % P
  {
    var r: nat := cell - c * rows;
    DivModUnique(cell, rows, c, r);
    DivModUnique(cell + 1, rows, c, r + 1);
    MulAssoc(rowRoot, Pow(rowRoot, r), scalars[c]);
  }

  lemma IdentitiesOfColumn(vars: seq<nat>, scalars: seq<Fp>, rowRoot: Fp, rows: nat, result: seq<Fp>, c: nat)
    requires c < |scalars| && rows > 0 && |vars| == |result| == |scalars| * rows
    requires forall cell: nat :: cell < |vars| ==> Labelled(vars, scalars, rowRoot, rows, result, cell)
    ensures ColumnIdentities(vars, scalars, rowRoot, rows, result, c)
  {
    hide Label, Row, Column, Next;
    var first := c * rows;
    ColumnFits(c, |scalars|, rows);
    FirstLabel(scalars, rowRoot, rows, c, first);
    assert Labelled(vars, scalars, rowRoot, rows, result, first);
    forall cell: nat | first <= cell < first + rows - 1
      ensures IdentityStep(vars, rowRoot, result, cell)
    {
      NextLabel(scalars, rowRoot, rows, c, cell);
      assert Labelled(vars, scalars, rowRoot, rows, result, cell);
      assert Labelled(vars, scalars, rowRoot, rows, result, cell + 1);
    }
  }

  lemma ColumnFits(c: nat, columns: nat, rows: nat)
    requires c < columns
    ensures c * rows + rows <= columns * rows
  {
    MultipleAtLeast(columns - c, rows);
    assert (columns - c) * rows == columns * rows - c * rows;
  }

  // ---- The pipeline ----

  lemma TablesComplete(vars: seq<nat>, order: seq<nat>, keys: seq<nat>, unique: seq<nat>, lengths: seq<nat>, runs: nat,
                       offsets: seq<nat>, marks: seq<nat>, runIndexes: seq<nat>)
    requires SortedCells(vars, order, keys) && Encoded(keys, unique, lengths, runs)
    requires |offsets| == |marks| == |runIndexes| == |vars|
    requires forall r: nat :: r < |vars| ==> offsets[r] == Sum(lengths, r)
    requires Marked(lengths, marks, |lengths|) && forall p: nat :: p < |vars| ==> runIndexes[p] == Sum(marks, p)
    ensures Tables(vars, order, keys, unique, lengths, runs, offsets, runIndexes)
  {
    forall p: nat | p < |vars|
      ensures InRun(lengths, runs, runIndexes[p], p)
    {
      ScanNumbersRuns(keys, unique, lengths, runs, marks, p);
    }
  }

  /** From the variables to the sorted cells and the encoding of their runs. */
  method SortAndEncode(vars: array<nat>, cells: array<nat>, unique: array<nat>, lengths: array<nat>)
    returns (ghost order: seq<nat>, ghost keys: seq<nat>, ghost runs: nat)
    requires vars.Length == cells.Length == unique.Length == lengths.Length
    requires vars != cells && vars != unique && vars != lengths && cells != unique && cells != lengths &&
             unique != lengths
    modifies cells, unique, lengths
    ensures SortedCells(vars[..], order, keys) && cells[..] == order && Encoded(keys, unique[..], lengths[..], runs)
  {
    var unsorted, sorted := new nat[vars.Length], new nat[vars.Length];
    Iota(unsorted);
    order := SortPairs(vars, sorted, unsorted, cells);
    Fill(lengths, 0);
    keys := sorted[..];
    runs := Encode(sorted, unique, lengths);
  }

  /** From the encoding to the offsets and the number of the run of every position. */
  method NumberRuns(lengths: array<nat>, offsets: array<nat>, runIndexes: array<nat>) returns (ghost marks: seq<nat>)
    requires lengths.Length == offsets.Length == runIndexes.Length
    requires lengths != offsets && lengths != runIndexes && offsets != runIndexes
    requires Sum(lengths[..], lengths.Length) == lengths.Length
    modifies offsets, runIndexes
    ensures forall r: nat :: r < offsets.Length ==> offsets[r] == Sum(lengths[..], r)
    ensures |marks| == runIndexes.Length && Marked(lengths[..], marks, lengths.Length)
    ensures forall p: nat :: p < runIndexes.Length ==> runIndexes[p] == Sum(marks, p)
  {
    ghost var was := lengths[..];
    assert Sum(was, |was|) == runIndexes.Length;
    forall i | 0 <= i < lengths.Length {
      offsets[i] := lengths[i];
    }
    assert offsets[..] == was;
    ScanInPlace(offsets);
    Fill(runIndexes, 0);
    assert lengths[..] == was && lengths.Length == |was|;
    MarkEnds(lengths, offsets, runIndexes);
    marks := runIndexes[..];
    ScanInPlace(runIndexes);
  }

  lemma {:induction false} NoMoreRuns(s: seq<nat>, unique: seq<nat>, lengths: seq<nat>, runs: nat, i: nat)
    requires Encoded(s, unique, lengths, runs) && runs <= i <= |s|
    ensures Sum(lengths, i) == |s|
  {
    if i > runs {
      NoMoreRuns(s, unique, lengths, runs, i - 1);
    }
  }

  /** All tables of the pipeline. */
  method BuildTables(vars: array<nat>, cells: array<nat>, unique: array<nat>, lengths: array<nat>, offsets: array<nat>,
                     runIndexes: array<nat>)
    returns (ghost order: seq<nat>, ghost keys: seq<nat>, ghost runs: nat)
    requires vars.Length == cells.Length == unique.Length == lengths.Length == offsets.Length == runIndexes.Length
    requires vars !in {cells, unique, lengths, offsets, runIndexes} && cells !in {unique, lengths, offsets, runIndexes}
    requires unique !in {lengths, offsets, runIndexes} && lengths !in {offsets, runIndexes} && offsets != runIndexes
    modifies cells, unique, lengths, offsets, runIndexes
    ensures cells[..] == order &&
            Tables(vars[..], order, keys, unique[..], lengths[..], runs, offsets[..], runIndexes[..])
  {
    order, keys, runs := SortAndEncode(vars, cells, unique, lengths);
    ghost var u, l := unique[..], lengths[..];
    NoMoreRuns(keys, u, l, runs, vars.Length);
    ghost var marks := NumberRuns(lengths, offsets, runIndexes);
    assert unique[..] == u && lengths[..] == l;
    TablesComplete(vars[..], order, keys, u, l, runs, offsets[..], marks, runIndexes[..]);
  }

  /** The assertions of the last launch hold (and the number of columns can be divided by). */
  predicate WholeColumns(cells: nat, columns: nat)
  {
    columns > 0 && cells % columns == 0 && PowerOfTwo(cells / columns)
  }

  lemma WholeDivision(cells: nat, columns: nat)
    requires WholeColumns(cells, columns)
    ensures cells / columns > 0 && cells == columns * (cells / columns)
  {
  }

  /**
   * `generate_permutation_matrix`: when the cells form whole columns of a power-of-two length, the cell that follows c
   * is given the identity of c, for every cell c. Otherwise an assertion (or the division by the number of columns)
   * fails.
   */
  method GeneratePermutation(vars: array<nat>, scalars: array<Fp>, result: array<Fp>, rootOrder: nat) returns (ok: bool)
    requires result.Length == vars.Length && scalars != result && rootOrder <= 32
    requires WholeColumns(vars.Length, scalars.Length) ==> TrailingZeros(vars.Length / scalars.Length) <= rootOrder
    modifies result
    ensures ok <==> scalars.Length > 0 && vars.Length % scalars.Length == 0 &&
                    exists k: nat :: vars.Length / scalars.Length == Pow2(k)
    ensures ok ==> WholeColumns(vars.Length, scalars.Length) && vars.Length / scalars.Length > 0
    ensures ok ==> var rows := vars.Length / scalars.Length;
                   forall c: nat :: c < vars.Length ==>
                     Labelled(vars[..], scalars[..], Root(TrailingZeros(rows)), rows, result[..], c)
    ensures ok ==> var rows := vars.Length / scalars.Length;
                   forall c: nat :: c < scalars.Length ==>
                     ColumnIdentities(vars[..], scalars[..], Root(TrailingZeros(rows)), rows, result[..], c)
  {
    var n := vars.Length;
    var cells, unique, lengths := new nat[n], new nat[n], new nat[n];
    var offsets, runIndexes := new nat[n], new nat[n];
    ghost var order, keys, runs := BuildTables(vars, cells, unique, lengths, offsets, runIndexes);
    ok := WholeColumns(n, scalars.Length);
    if scalars.Length > 0 {
      PowerOfTwoExactly(n / scalars.Length);
    }
    if ok {
      var rows := n / scalars.Length;
      WholeDivision(n, scalars.Length);
      ghost var rowRoot := Root(TrailingZeros(rows));
      var shift := rootOrder - TrailingZeros(rows);
      Scatter(unique, runIndexes, lengths, offsets, cells, scalars, result, rootOrder, shift, rows, rowRoot, vars[..],
              order, keys, runs);
      forall c: nat | c < scalars.Length
        ensures ColumnIdentities(vars[..], scalars[..], rowRoot, rows, result[..], c)
      {
        IdentitiesOfColumn(vars[..], scalars[..], rowRoot, rows, result[..], c);
      }
    }
  }
}
