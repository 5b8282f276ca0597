// The external matrix of Poseidon2: a program of additions, the matrix it multiplies by, and its inverse.
module Mds {
  import opened Field
  import opened Roots

  const WIDTH: nat := 12

  type Vector = s: seq<Fp> | |s| == WIDTH witness [0, 0, 0, 0, 0, 0, 0, 0, 0, 0, 0, 0]

  /** The element of the field that an integer stands for. */
  function Residue(x: int): Fp
  {
    x % P
  }

  lemma Reduced(a: int, b: int)
    ensures Add(Residue(a), Residue(b)) == Residue(a + b)
    ensures Sub(Residue(a), Residue(b)) == Residue(a - b)
  {
    ModAddSub(a, b);
  }

  lemma Own(x: Fp)
    ensures Residue(x) == x
  {
  }

  // ---- The matrix ----

  /** M_4, row by row. */
  function M4(i: nat): seq<nat>
    requires i < 4
    ensures |M4(i)| == 4
  {
    if i == 0 then [5, 7, 1, 3] else if i == 1 then [4, 6, 1, 1] else if i == 2 then [1, 3, 5, 7] else [1, 1, 4, 6]
  }

  /** Row i of M_4 times block b of the vector, as an integer. */
  function BlockRow(i: nat, v: Vector, b: nat): int
    requires i < 4 && b < 3
  {
    M4(i)[0] * v[4 * b] + M4(i)[1] * v[4 * b + 1] + M4(i)[2] * v[4 * b + 2] + M4(i)[3] * v[4 * b + 3]
  }

  /** Row i of the block-circulant matrix of (2 M_4, M_4, M_4) times the vector: the row's own block counts twice. */
  function Row(i: nat, v: Vector): int
    requires i < WIDTH
  {
    BlockRow(i % 4, v, 0) + BlockRow(i % 4, v, 1) + BlockRow(i % 4, v, 2) + BlockRow(i % 4, v, i / 4)
  }

  /** Multiplication by the matrix, over the field. */
  function Times(v: Vector): (r: Vector)
  {
    seq(WIDTH, i requires 0 <= i < WIDTH => Residue(Row(i, v)))
  }

  // ---- The program ----

  lemma Doubled(a: int, b: int)
    ensures var t := Residue(a); Add(Add(t, t), Residue(b)) == Residue(2 * a + b)
  {
    hide Residue, Add;
    Reduced(a, a);
    Reduced(2 * a, b);
  }

  lemma Quadrupled(a: int, b: int)
    ensures var t := Residue(a); Add(Add(Add(t, t), Add(t, t)), Residue(b)) == Residue(4 * a + b)
  {
    hide Residue, Add;
    Reduced(a, a);
    Reduced(2 * a, 2 * a);
    Reduced(4 * a, b);
  }

  /** `block_mul`, on integers that stand for the elements of a block. */
  method BlockMul(x0: Fp, x1: Fp, x2: Fp, x3: Fp) returns (y0: Fp, y1: Fp, y2: Fp, y3: Fp)
    ensures y0 == Residue(5 * x0 + 7 * x1 + x2 + 3 * x3) && y1 == Residue(4 * x0 + 6 * x1 + x2 + x3)
    ensures y2 == Residue(x0 + 3 * x1 + 5 * x2 + 7 * x3) && y3 == Residue(x0 + x1 + 4 * x2 + 6 * x3)
  {
    hide Residue, Add;
    Own(x0);
    Own(x1);
    Own(x2);
    Own(x3);
    var t0 := Add(x0, x1);
    Reduced(x0, x1);
    var t1 := Add(x2, x3);
    Reduced(x2, x3);
    var t2 := Add(Add(x1, x1), t1);
    Doubled(x1, x2 + x3);
    var t3 := Add(Add(x3, x3), t0);
    Doubled(x3, x0 + x1);
    var t4 := Add(Add(Add(t1, t1), Add(t1, t1)), t3);
    Quadrupled(x2 + x3, 2 * x3 + (x0 + x1));
    var t5 := Add(Add(Add(t0, t0), Add(t0, t0)), t2);
    Quadrupled(x0 + x1, 2 * x1 + (x2 + x3));
    var t6 := Add(t3, t5);
    Reduced(2 * x3 + (x0 + x1), 4 * (x0 + x1) + (2 * x1 + (x2 + x3)));
    var t7 := Add(t2, t4);
    Reduced(2 * x1 + (x2 + x3), 4 * (x2 + x3) + (2 * x3 + (x0 + x1)));
    return t6, t5, t7, t4;
  }

  /** What is stored: twice the value of the own block plus those of the other two. */
  function Circulate(x: Fp, y: Fp, z: Fp): Fp
  {
    Add(Add(Add(x, x), y), z)
  }

  lemma CirculateSum(a: int, b: int, c: int)
    ensures Circulate(Residue(a), Residue(b), Residue(c)) == Residue(2 * a + b + c)
  {
    hide Residue, Add;
    Doubled(a, b);
    Reduced(2 * a + b, c);
  }

  /** The state after the three calls of `block_mul`. */
  function Blocks(v: Vector): (r: Vector)
  {
    seq(WIDTH, i requires 0 <= i < WIDTH => Residue(BlockRow(i % 4, v, i / 4)))
  }

  lemma BlockAt(v: Vector, b: nat, i: nat)
    requires b < 3 && i < 4
    ensures Blocks(v)[4 * b + i] == Residue(BlockRow(i, v, b))
  {
    hide Residue, BlockRow;
    assert (4 * b + i) % 4 == i && (4 * b + i) / 4 == b;
  }

  method BlockMulAt(v: Vector, b: nat) returns (block: seq<Fp>)
    requires b < 3
    ensures |block| == 4 && forall i :: 0 <= i < 4 ==> block[i] == Blocks(v)[4 * b + i]
  {
    hide Residue, Blocks;
    BlockAt(v, b, 0);
    BlockAt(v, b, 1);
    BlockAt(v, b, 2);
    BlockAt(v, b, 3);
    var y0, y1, y2, y3 := BlockMul(v[4 * b], v[4 * b + 1], v[4 * b + 2], v[4 * b + 3]);
    block := [y0, y1, y2, y3];
  }

  /** Row i of each of the three blocks is stored. */
  ghost predicate RowsStored(state: seq<Fp>, v: Vector, i: nat)
    requires |state| == WIDTH && i < 4
  {
    state[i] == Times(v)[i] && state[4 + i] == Times(v)[4 + i] && state[8 + i] == Times(v)[8 + i]
  }

  lemma RowsOfTimes(v: Vector, i: nat)
    requires i < 4
    ensures Times(v)[i] == Circulate(Blocks(v)[i], Blocks(v)[4 + i], Blocks(v)[8 + i])
    ensures Times(v)[4 + i] == Circulate(Blocks(v)[4 + i], Blocks(v)[i], Blocks(v)[8 + i])
    ensures Times(v)[8 + i] == Circulate(Blocks(v)[8 + i], Blocks(v)[i], Blocks(v)[4 + i])
  {
    hide Residue, BlockRow, Circulate;
    CirculateSum(BlockRow(i, v, 0), BlockRow(i, v, 1), BlockRow(i, v, 2));
    CirculateSum(BlockRow(i, v, 1), BlockRow(i, v, 0), BlockRow(i, v, 2));
    CirculateSum(BlockRow(i, v, 2), BlockRow(i, v, 0), BlockRow(i, v, 1));
    TimesAt(v, 0, i);
    TimesAt(v, 1, i);
    TimesAt(v, 2, i);
    assert (4 + i) % 4 == i && (4 + i) / 4 == 1 && (8 + i) % 4 == i && (8 + i) / 4 == 2;
  }

  lemma TimesAt(v: Vector, b: nat, i: nat)
    requires b < 3 && i < 4
    ensures Times(v)[4 * b + i]
            == Residue(BlockRow(i, v, 0) + BlockRow(i, v, 1) + BlockRow(i, v, 2) + BlockRow(i, v, b))
  {
    hide Residue, BlockRow;
    assert (4 * b + i) % 4 == i && (4 * b + i) / 4 == b;
  }

  lemma RowsKept(before: seq<Fp>, after: seq<Fp>, v: Vector, i: nat)
    requires |before| == |after| == WIDTH && i < 4 && forall j: nat :: j < i ==> RowsStored(before, v, j)
    requires RowsStored(after, v, i) && forall p: nat :: p < WIDTH && p % 4 != i ==> after[p] == before[p]
    ensures forall j: nat :: j < i + 1 ==> RowsStored(after, v, j)
  {
    hide Times;
    forall j: nat | j < i + 1
      ensures RowsStored(after, v, j)
    {
      if j < i {
        assert RowsStored(before, v, j);
        assert (4 + j) % 4 != i && (8 + j) % 4 != i;
      }
    }
  }

  lemma AllRowsStored(state: seq<Fp>, v: Vector)
    requires |state| == WIDTH && RowsStored(state, v, 0) && RowsStored(state, v, 1) && RowsStored(state, v, 2) &&
             RowsStored(state, v, 3)
    ensures state == Times(v)
  {
    hide Residue, BlockRow;
    assert state == [state[0], state[1], state[2], state[3], state[4], state[5],
                     state[6], state[7], state[8], state[9], state[10], state[11]];
  }

  /** `suggested_mds_mul` multiplies the state by the matrix, in place. */
  method SuggestedMdsMul(state: array<Fp>)
    requires state.Length == WIDTH
    modifies state
    ensures state[..] == Times(old(state[..]))
  {
    hide Residue, BlockRow, Circulate, Times, Blocks;
    ghost var v: Vector := state[..];
    var x0 := BlockMulAt(state[..], 0);
    var x4 := BlockMulAt(state[..], 1);
    var x8 := BlockMulAt(state[..], 2);
    for i: nat := 0 to 4
      invariant forall j: nat :: j < i ==> RowsStored(state[..], v, j)
    {
      RowsOfTimes(v, i);
      ghost var before := state[..];
      state[i] := Circulate(x0[i], x4[i], x8[i]);
      state[4 + i] := Circulate(x4[i], x0[i], x8[i]);
      state[8 + i] := Circulate(x8[i], x0[i], x4[i]);
      RowsKept(before, state[..], v, i);
    }
    AllRowsStored(state[..], v);
  }

  // ---- The inverse ----

  function Half(x: Fp): Fp
  {
    Mul(TWO_INV, x)
  }

  lemma HalfOf(x: int)
    ensures Half(Residue(2 * x)) == Residue(x)
  {
    MulMod(TWO_INV, 2 * x);
    assert TWO_INV * (2 * x) == x + x * P;
    ModAddMultiple(x, x);
  }

  function Quarter(x: Fp): Fp
  {
    Half(Half(x))
  }

  lemma QuarterOf(x: int)
    ensures Quarter(Residue(4 * x)) == Residue(x)
  {
    HalfOf(2 * x);
    HalfOf(x);
  }

  /** The inverse of `block_mul`, its steps taken backwards. */
  function BlockUnmul(y: seq<Fp>): (x: seq<Fp>)
    requires |y| == 4
    ensures |x| == 4
  {
    var t2, t3 := Sub(y[2], y[3]), Sub(y[0], y[1]);
    var t0, t1 := Quarter(Sub(y[1], t2)), Quarter(Sub(y[3], t3));
    var x3, x1 := Half(Sub(t3, t0)), Half(Sub(t2, t1));
    [Sub(t0, x1), x1, Sub(t1, x3), x3]
  }

  lemma BlockUndone(x0: Fp, x1: Fp, x2: Fp, x3: Fp, y: seq<Fp>)
    requires |y| == 4
    requires y[0] == Residue(5 * x0 + 7 * x1 + x2 + 3 * x3) && y[1] == Residue(4 * x0 + 6 * x1 + x2 + x3)
    requires y[2] == Residue(x0 + 3 * x1 + 5 * x2 + 7 * x3) && y[3] == Residue(x0 + x1 + 4 * x2 + 6 * x3)
    ensures BlockUnmul(y) == [x0, x1, x2, x3]
  {
    hide Residue, Sub, Half, Quarter;
    Reduced(x0 + 3 * x1 + 5 * x2 + 7 * x3, x0 + x1 + 4 * x2 + 6 * x3);
    Reduced(5 * x0 + 7 * x1 + x2 + 3 * x3, 4 * x0 + 6 * x1 + x2 + x3);
    Reduced(4 * x0 + 6 * x1 + x2 + x3, 2 * x1 + x2 + x3);
    Reduced(x0 + x1 + 4 * x2 + 6 * x3, x0 + x1 + 2 * x3);
    QuarterOf(x0 + x1);
    QuarterOf(x2 + x3);
    Reduced(x0 + x1 + 2 * x3, x0 + x1);
    Reduced(2 * x1 + x2 + x3, x2 + x3);
    HalfOf(x3);
    HalfOf(x1);
    Reduced(x0 + x1, x1);
    Reduced(x2 + x3, x3);
    Own(x0);
    Own(x1);
    Own(x2);
    Own(x3);
  }

  /** The inverse of the circulant: a quarter of the sum of all three is taken off each. */
  function Uncirculate(x: Fp, y: Fp, z: Fp): Fp
  {
    Sub(x, Quarter(Add(Add(x, y), z)))
  }

  lemma Uncirculated(a: int, b: int, c: int)
    ensures Uncirculate(Residue(2 * a + b + c), Residue(2 * b + a + c), Residue(2 * c + a + b)) == Residue(a)
  {
    hide Residue, Sub, Add, Quarter;
    Reduced(2 * a + b + c, 2 * b + a + c);
    Reduced(3 * a + 3 * b + 2 * c, 2 * c + a + b);
    QuarterOf(a + b + c);
    Reduced(2 * a + b + c, a + b + c);
  }

  /** The inverse program on a whole state. */
  function Inverse(v: Vector): (r: Vector)
  {
    BlockUnmul(Part(v, 0)) + BlockUnmul(Part(v, 1)) + BlockUnmul(Part(v, 2))
  }

  /** The first of the other two blocks, and the second. */
  function Other(b: nat, second: bool): (c: nat)
    requires b < 3
    ensures c < 3
  {
    if second then (if b == 2 then 1 else 2) else if b == 0 then 1 else 0
  }

  /** Block b of the state before it was circulated. */
  function Part(v: Vector, b: nat): (r: seq<Fp>)
    requires b < 3
    ensures |r| == 4
  {
    [PartAt(v, b, 0), PartAt(v, b, 1), PartAt(v, b, 2), PartAt(v, b, 3)]
  }

  function PartAt(v: Vector, b: nat, i: nat): Fp
    requires b < 3 && i < 4
  {
    Uncirculate(v[4 * b + i], v[4 * Other(b, false) + i], v[4 * Other(b, true) + i])
  }

  lemma PartOfTimes(v: Vector, b: nat, i: nat)
    requires b < 3 && i < 4
    ensures PartAt(Times(v), b, i) == Residue(BlockRow(i, v, b))
  {
    hide Residue, BlockRow, Uncirculate, Times;
    var c, d := Other(b, false), Other(b, true);
    Uncirculated(BlockRow(i, v, b), BlockRow(i, v, c), BlockRow(i, v, d));
    TimesAt(v, b, i);
    TimesAt(v, c, i);
    TimesAt(v, d, i);
  }

  /** Block b of the product is taken back to block b of the vector. */
  lemma BlockOfInverse(v: Vector, b: nat)
    requires b < 3
    ensures BlockUnmul(Part(Times(v), b)) == v[4 * b..4 * b + 4]
  {
    hide Residue, PartAt, Times, BlockUnmul;
    PartOfTimes(v, b, 0);
    PartOfTimes(v, b, 1);
    PartOfTimes(v, b, 2);
    PartOfTimes(v, b, 3);
    BlockUndone(v[4 * b], v[4 * b + 1], v[4 * b + 2], v[4 * b + 3], Part(Times(v), b));
  }

  /** The inverse program undoes the multiplication for every state, so the matrix is a bijection. */
  lemma InverseUndoesTimes(v: Vector)
    ensures Inverse(Times(v)) == v
  {
    hide Residue, Times, Part, BlockUnmul;
    BlockOfInverse(v, 0);
    BlockOfInverse(v, 1);
    BlockOfInverse(v, 2);
    assert v == v[..4] + v[4..8] + v[8..];
  }

  // ---- The inverse from the other side ----

  /** Field operations as integer operations up to a multiple of P. */
  lemma SubExact(a: Fp, b: Fp) returns (q: int)
    ensures Sub(a, b) == a - b + q * P
  {
    q := -((a - b) / P);
  }

  lemma HalfExact(a: Fp) returns (q: int)
    ensures 2 * Half(a) == a + q * P
  {
    var d := TWO_INV * a / P;
    assert Half(a) == TWO_INV * a - d * P;
    assert 2 * TWO_INV == P + 1;
    q := a - 2 * d;
    assert 2 * (TWO_INV * a) == (P + 1) * a;
  }

  lemma QuarterExact(a: Fp) returns (q: int)
    ensures 4 * Quarter(a) == a + q * P
  {
    var p := HalfExact(a);
    var r := HalfExact(Half(a));
    q := p + 2 * r;
  }

  lemma ResidueExact(y: Fp, x: int, q: int)
    requires x == y + q * P
    ensures Residue(x) == y
  {
    ModUnique(x, q, y);
  }

  lemma HalfOfDifference(a: Fp, b: Fp) returns (q: int)
    ensures 2 * Half(Sub(a, b)) == a - b + q * P
  {
    var d := SubExact(a, b);
    var e := HalfExact(Sub(a, b));
    q := d + e;
  }

  lemma QuarterOfDifference(a: Fp, b: Fp) returns (q: int)
    ensures 4 * Quarter(Sub(a, b)) == a - b + q * P
  {
    var d := SubExact(a, b);
    var e := QuarterExact(Sub(a, b));
    q := d + e;
  }

  ghost predicate BlockOf(x0: Fp, x1: Fp, x2: Fp, x3: Fp, y: seq<Fp>)
    requires |y| == 4
  {
    && Residue(5 * x0 + 7 * x1 + x2 + 3 * x3) == y[0] && Residue(4 * x0 + 6 * x1 + x2 + x3) == y[1]
    && Residue(x0 + 3 * x1 + 5 * x2 + 7 * x3) == y[2] && Residue(x0 + x1 + 4 * x2 + 6 * x3) == y[3]
  }

  /** The four rows of M_4, put together over the integers; a to h count the multiples of P. */
  lemma RowsRedone(x0: Fp, x1: Fp, x2: Fp, x3: Fp, y: seq<Fp>, t0: int, t1: int, t2: int, t3: int,
                   a: int, b: int, c: int, d: int, e: int, f: int, g: int, h: int)
    requires |y| == 4
    requires t2 == y[2] - y[3] + a * P && t3 == y[0] - y[1] + b * P
    requires 4 * t0 == y[1] - t2 + c * P && 4 * t1 == y[3] - t3 + d * P
    requires 2 * x3 == t3 - t0 + e * P && 2 * x1 == t2 - t1 + f * P && x0 == t0 - x1 + g * P && x2 == t1 - x3 + h * P
    ensures BlockOf(x0, x1, x2, x3, y)
  {
    hide Residue;
    ResidueExact(y[1], 4 * x0 + 6 * x1 + x2 + x3, c + f + 4 * g + h);
    ResidueExact(y[3], x0 + x1 + 4 * x2 + 6 * x3, d + e + g + 4 * h);
    ResidueExact(y[0], 5 * x0 + 7 * x1 + x2 + 3 * x3, c + f + 5 * g + h + b + e);
    ResidueExact(y[2], x0 + 3 * x1 + 5 * x2 + 7 * x3, d + e + g + 5 * h + a + f);
  }

  /** `block_mul` undoes its inverse. */
  lemma BlockRedone(y: seq<Fp>)
    requires |y| == 4
    ensures BlockOf(BlockUnmul(y)[0], BlockUnmul(y)[1], BlockUnmul(y)[2], BlockUnmul(y)[3], y)
  {
    hide Sub, Half, Quarter, BlockOf;
    var t2, t3 := Sub(y[2], y[3]), Sub(y[0], y[1]);
    var t0, t1 := Quarter(Sub(y[1], t2)), Quarter(Sub(y[3], t3));
    var x3, x1 := Half(Sub(t3, t0)), Half(Sub(t2, t1));
    var x0, x2 := Sub(t0, x1), Sub(t1, x3);
    var a := SubExact(y[2], y[3]);
    var b := SubExact(y[0], y[1]);
    var c := QuarterOfDifference(y[1], t2);
    var d := QuarterOfDifference(y[3], t3);
    var e := HalfOfDifference(t3, t0);
    var f := HalfOfDifference(t2, t1);
    var g := SubExact(t0, x1);
    var h := SubExact(t1, x3);
    RowsRedone(x0, x1, x2, x3, y, t0, t1, t2, t3, a, b, c, d, e, f, g, h);
    assert BlockUnmul(y) == [x0, x1, x2, x3];
  }

  /** The sum that is quartered is the same whichever element comes first. */
  lemma SameSum(x: Fp, y: Fp, z: Fp)
    ensures Add(Add(x, y), z) == Residue(x + y + z)
  {
    Own(x);
    Own(y);
    Own(z);
    Reduced(x, y);
    Reduced(x + y, z);
  }

  /** Circulating undoes the inverse of the circulant. */
  lemma Recirculated(x: Fp, y: Fp, z: Fp)
    ensures Circulate(Uncirculate(x, y, z), Uncirculate(y, x, z), Uncirculate(z, x, y)) == x
    ensures Circulate(Uncirculate(y, x, z), Uncirculate(x, y, z), Uncirculate(z, x, y)) == y
    ensures Circulate(Uncirculate(z, x, y), Uncirculate(x, y, z), Uncirculate(y, x, z)) == z
  {
    hide Residue, Add, Sub, Quarter, Circulate;
    SameSum(x, y, z);
    SameSum(y, x, z);
    SameSum(z, x, y);
    var s := Residue(x + y + z);
    var q := Quarter(s);
    var d := QuarterExact(s);
    var e := SubExact(x, q);
    var f := SubExact(y, q);
    var g := SubExact(z, q);
    Own(Sub(x, q));
    Own(Sub(y, q));
    Own(Sub(z, q));
    var c := SumExact(x + y + z);
    CirculateSum(Sub(x, q), Sub(y, q), Sub(z, q));
    CirculateSum(Sub(y, q), Sub(x, q), Sub(z, q));
    CirculateSum(Sub(z, q), Sub(x, q), Sub(y, q));
    ResidueExact(x, 2 * Sub(x, q) + Sub(y, q) + Sub(z, q), 2 * e + f + g - c - d);
    ResidueExact(y, 2 * Sub(y, q) + Sub(x, q) + Sub(z, q), 2 * f + e + g - c - d);
    ResidueExact(z, 2 * Sub(z, q) + Sub(x, q) + Sub(y, q), 2 * g + e + f - c - d);
  }

  lemma SumExact(a: int) returns (q: int)
    ensures Residue(a) == a + q * P
  {
    q := -(a / P);
  }

  /** `block_mul` takes each block of the inverse to the block of uncirculated values. */
  lemma BlocksOfInverse(v: Vector, b: nat, i: nat)
    requires b < 3 && i < 4
    ensures Blocks(Inverse(v))[4 * b + i] == PartAt(v, b, i)
  {
    hide Residue, PartAt, BlockUnmul, Blocks;
    var w := Inverse(v);
    var u := BlockUnmul(Part(v, b));
    assert w[4 * b..4 * b + 4] == u;
    assert u[0] == w[4 * b] && u[1] == w[4 * b + 1] && u[2] == w[4 * b + 2] && u[3] == w[4 * b + 3];
    BlockRedone(Part(v, b));
    BlockAt(w, b, i);
  }

  lemma TimesOfInverse(v: Vector, i: nat)
    requires i < 4
    ensures RowsStored(v, Inverse(v), i)
  {
    hide Residue, Uncirculate, Circulate, Inverse, Blocks, Times;
    RowsOfTimes(Inverse(v), i);
    BlocksOfInverse(v, 0, i);
    BlocksOfInverse(v, 1, i);
    BlocksOfInverse(v, 2, i);
    Recirculated(v[i], v[4 + i], v[8 + i]);
  }

  /** The multiplication undoes the inverse program too: every state is the product of exactly one. */
  lemma TimesUndoesInverse(v: Vector)
    ensures Times(Inverse(v)) == v
  {
    hide Times, Inverse;
    TimesOfInverse(v, 0);
    TimesOfInverse(v, 1);
    TimesOfInverse(v, 2);
    TimesOfInverse(v, 3);
    AllRowsStored(v, Inverse(v));
  }
}
