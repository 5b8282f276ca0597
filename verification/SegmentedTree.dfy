// Hashing the columns in segments that fit a small buffer, with the sponge states saved in between.
module SegmentedTree {
  import opened Field
  import opened Bits
  import opened Roots
  import opened Ntt
  import opened Coset
  import opened Columns
  import opened Leaves

  // ---- Extending a segment into the buffer ----

  function Zeros(n: nat): (r: seq<Fp>)
    ensures |r| == n
  {
    seq<Fp>(n, _ => 0)
  }

  /** `pad_coset` on one column, into a zeroed column of length `size`; like `mul_exp` it leaves short columns alone. */
  function PadCoset(c: Poly, k: nat, size: nat): Poly
    requires |c| <= size
  {
    if k < 5 then Zeros(size) else CosetScale(c, GENERATOR) + Zeros(size - |c|)
  }

  /** All columns of `v`, padded. */
  function Padded(v: seq<Fp>, n: nat, k: nat, size: nat): seq<Fp>
    requires 0 < n <= size
  {
    if |v| < n then [] else PadCoset(v[..n], k, size) + Padded(v[n..], n, k, size)
  }

  lemma {:induction false} PaddedLength(v: seq<Fp>, n: nat, k: nat, size: nat, num: nat)
    requires 0 < n <= size && |v| == num * n
    ensures |Padded(v, n, k, size)| == num * size
    decreases num
  {
    if num > 0 {
      Peel(num, n);
      Peel(num, size);
      PaddedLength(v[n..], n, k, size, num - 1);
    }
  }

  lemma {:induction false} PaddedConcat(a: seq<Fp>, b: seq<Fp>, n: nat, k: nat, size: nat, num: nat)
    requires 0 < n <= size && |a| == num * n
    ensures Padded(a + b, n, k, size) == Padded(a, n, k, size) + Padded(b, n, k, size)
    decreases num
  {
    if num == 0 {
      assert a + b == b;
    } else {
      Peel(num, n);
      PaddedConcat(a[n..], b, n, k, size, num - 1);
      assert (a + b)[..n] == a[..n] && (a + b)[n..] == a[n..] + b;
    }
  }

  /** One column of `pad_coset`. */
  method PadColumn(values: array<Fp>, from: nat, n: nat, k: nat, buffer: array<Fp>, to: nat,
                   ghost c: Poly, ghost pre: seq<Fp>, ghost size: nat, ghost post: seq<Fp>)
    requires values != buffer && n == |c| <= size && from + n <= values.Length && c == values[from..from + n]
    requires buffer[..] == pre + Zeros(size) + post && |pre| == to
    modifies buffer
    ensures buffer[..] == pre + PadCoset(c, k, size) + post
  {
    if k < 5 {
      return;
    }
    var power := 1;
    for j: nat := 0 to n
      invariant power == Pow(GENERATOR, j)
      invariant buffer[..] == pre + (CosetScale(c, GENERATOR)[..j] + Zeros(size - j)) + post
    {
      buffer[to + j] := Mul(values[from + j], power);
      power := Mul(GENERATOR, power);
      NextPadded(c, pre, size, post, j);
    }
  }

  lemma NextPadded(c: Poly, pre: seq<Fp>, size: nat, post: seq<Fp>, j: nat)
    requires j < |c| <= size
    ensures (pre + (CosetScale(c, GENERATOR)[..j] + Zeros(size - j)) + post)[|pre| + j := Mul(c[j], Pow(GENERATOR, j))]
         == pre + (CosetScale(c, GENERATOR)[..j + 1] + Zeros(size - (j + 1))) + post
  {
    var before, after := pre + (CosetScale(c, GENERATOR)[..j] + Zeros(size - j)) + post,
                         pre + (CosetScale(c, GENERATOR)[..j + 1] + Zeros(size - (j + 1))) + post;
    forall p | 0 <= p < |before|
      ensures before[|pre| + j := Mul(c[j], Pow(GENERATOR, j))][p] == after[p]
    {
    }
  }

  /** Clearing the buffer. */
  method Clear(buffer: array<Fp>)
    modifies buffer
    ensures buffer[..] == Zeros(buffer.Length)
  {
    for i := 0 to buffer.Length
      invariant forall p :: 0 <= p < i ==> buffer[p] == 0
    {
      buffer[i] := 0;
    }
  }

  /** The padding loop: `done` is finished, `left` columns of `rest` are still to come. */
  ghost predicate PaddingProgress(v: seq<Fp>, n: nat, k: nat, size: nat, done: seq<Fp>, rest: seq<Fp>, left: nat)
    requires 0 < n <= size
  {
    |rest| == left * n && Padded(v, n, k, size) == done + Padded(rest, n, k, size)
  }

  lemma PaddingStep(v: seq<Fp>, n: nat, k: nat, size: nat, done: seq<Fp>, rest: seq<Fp>, left: nat, room: nat)
    requires 0 < n <= size && left > 0 && PaddingProgress(v, n, k, size, done, rest, left) && left * size <= room
    ensures n <= |rest| && size <= room && (left - 1) * size <= room - size
    ensures PaddingProgress(v, n, k, size, done + PadCoset(rest[..n], k, size), rest[n..], left - 1)
  {
    Peel(left, n);
    Peel(left, size);
    NextColumnPadded(done, rest, n, k, size);
  }

  lemma NextColumnPadded(done: seq<Fp>, rest: seq<Fp>, n: nat, k: nat, size: nat)
    requires 0 < n <= size && n <= |rest|
    ensures done + Padded(rest, n, k, size) == done + PadCoset(rest[..n], k, size) + Padded(rest[n..], n, k, size)
  {
    hide PadCoset;
  }

  lemma ZerosSplit(done: seq<Fp>, size: nat, room: nat)
    requires size <= room
    ensures done + Zeros(room) == done + Zeros(size) + Zeros(room - size)
  {
  }

  /** The next column of `batch_pad_coset`. */
  method PadNext(values: array<Fp>, from: nat, n: nat, k: nat, buffer: array<Fp>, to: nat, size: nat, ghost v: seq<Fp>,
                 ghost done: seq<Fp>, ghost rest: seq<Fp>, ghost left: nat, ghost room: nat)
    returns (ghost done': seq<Fp>, ghost rest': seq<Fp>)
    requires values != buffer && 0 < n <= size && left > 0 && left * size <= room && to == |done|
    requires PaddingProgress(v, n, k, size, done, rest, left)
    requires from + |rest| <= values.Length && rest == values[from..from + |rest|]
    requires buffer[..] == done + Zeros(room)
    modifies buffer
    ensures n <= |rest| && rest' == rest[n..] && size <= room && (left - 1) * size <= room - size
    ensures PaddingProgress(v, n, k, size, done', rest', left - 1) && |done'| == to + size
    ensures buffer[..] == done' + Zeros(room - size)
  {
    PaddingStep(v, n, k, size, done, rest, left, room);
    ZerosSplit(done, size, room);
    done', rest' := done + PadCoset(rest[..n], k, size), rest[n..];
    PadColumn(values, from, n, k, buffer, to, rest[..n], done, size, Zeros(room - size));
  }

  /** `batch_pad_coset` of the columns `v` at `offset` into a cleared buffer. */
  method PadSegment(values: array<Fp>, offset: nat, n: nat, k: nat, num: nat, buffer: array<Fp>, size: nat,
                    ghost v: seq<Fp>)
    returns (ghost room: nat)
    requires values != buffer && 0 < n <= size && |v| == num * n && offset + |v| <= values.Length &&
             v == values[offset..offset + |v|]
    requires num * size <= buffer.Length && buffer[..] == Zeros(buffer.Length)
    modifies buffer
    ensures buffer[..] == Padded(v, n, k, size) + Zeros(room)
  {
    room := buffer.Length;
    ghost var done, rest := [], v;
    var from: nat, to: nat, left: nat := offset, 0, num;
    while left > 0
      invariant left * size <= room && PaddingProgress(v, n, k, size, done, rest, left)
      invariant to == |done| && from + |rest| <= values.Length && rest == values[from..from + |rest|]
      invariant buffer[..] == done + Zeros(room)
    {
      done, rest := PadNext(values, from, n, k, buffer, to, size, v, done, rest, left, room);
      room := room - size;
      from, to, left := from + n, to + size, left - 1;
    }
  }

  /** The extended columns of `v`, as the buffer holds them. */
  function SegmentColumns(order: nat, v: seq<Fp>, k: nat, rateBits: nat): seq<Fp>
    requires 1 <= order <= 32 && Pow2(k) <= Pow2(k + rateBits)
  {
    EachColumn(ForwardUpTo(order, k + rateBits, k + rateBits), Pow2(k + rateBits),
               Padded(v, Pow2(k), k, Pow2(k + rateBits)))
  }

  lemma SegmentColumnsLength(order: nat, v: seq<Fp>, k: nat, rateBits: nat, num: nat)
    requires 1 <= order <= 32 && Pow2(k) <= Pow2(k + rateBits) && |v| == num * Pow2(k)
    ensures |SegmentColumns(order, v, k, rateBits)| == num * Pow2(k + rateBits)
    ensures |Padded(v, Pow2(k), k, Pow2(k + rateBits))| == num * Pow2(k + rateBits)
  {
    PaddedLength(v, Pow2(k), k, Pow2(k + rateBits), num);
    EachLength(ForwardUpTo(order, k + rateBits, k + rateBits), Pow2(k + rateBits),
               Padded(v, Pow2(k), k, Pow2(k + rateBits)));
  }

  /** The transforms of a padded segment. */
  method TransformSegment(order: nat, bits: nat, buffer: array<Fp>, num: nat, ghost padded: seq<Fp>, ghost room: nat)
    returns (ok: bool)
    requires 1 <= order <= 32 && |padded| == num * Pow2(bits) && buffer[..] == padded + Zeros(room)
    modifies buffer
    ensures |padded| <= buffer.Length
    ensures ok <==> bits >= 1
    ensures ok ==> buffer[..|padded|] == EachColumn(ForwardUpTo(order, bits, bits), Pow2(bits), padded)
  {
    EachLength(ForwardUpTo(order, bits, bits), Pow2(bits), padded);
    assert buffer[..] == [] + padded + Zeros(room);
    ok := BatchForward(order, bits, buffer, 0, num, [], padded, Zeros(room));
  }

  /**
   * `batch_lde_transpose_out_of_place_ptr`: pad, then transform in the buffer; an extension to one value is refused.
   */
  method ExtendSegment(order: nat, k: nat, rateBits: nat, values: array<Fp>, offset: nat, num: nat, buffer: array<Fp>,
                       ghost v: seq<Fp>)
    returns (ok: bool)
    requires 1 <= order <= 32 && Pow2(k) <= Pow2(k + rateBits) && values != buffer
    requires |v| == num * Pow2(k) && offset + |v| <= values.Length && v == values[offset..offset + |v|]
    requires num * Pow2(k + rateBits) <= buffer.Length
    modifies buffer
    ensures |SegmentColumns(order, v, k, rateBits)| == num * Pow2(k + rateBits)
    ensures ok <==> k + rateBits >= 1
    ensures ok ==> buffer[..num * Pow2(k + rateBits)] == SegmentColumns(order, v, k, rateBits)
  {
    SegmentColumnsLength(order, v, k, rateBits, num);
    Clear(buffer);
    ghost var room := PadSegment(values, offset, Pow2(k), k, num, buffer, Pow2(k + rateBits), v);
    ok := TransformSegment(order, k + rateBits, buffer, num, Padded(v, Pow2(k), k, Pow2(k + rateBits)), room);
  }
}
