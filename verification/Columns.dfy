// Batches: the same column operation on every column of a region of the buffer.
module Columns {
  import opened Field
  import opened Bits
  import opened Ntt
  import opened Device

  ghost predicate LengthPreserving(f: Poly -> Poly)
  {
    forall c: Poly :: |f(c)| == |c|
  }

  /** `f` on each of the columns of length `n` that `v` consists of. */
  function EachColumn(f: Poly -> Poly, n: nat, v: seq<Fp>): seq<Fp>
    requires n > 0
  {
    if |v| < n then v else f(v[..n]) + EachColumn(f, n, v[n..])
  }

  lemma EachCons(f: Poly -> Poly, n: nat, column: Poly, rest: seq<Fp>)
    requires n > 0 && |column| == n
    ensures EachColumn(f, n, column + rest) == f(column) + EachColumn(f, n, rest)
  {
    var v := column + rest;
    assert v[..n] == column && v[n..] == rest;
  }

  lemma {:induction false} EachLength(f: Poly -> Poly, n: nat, v: seq<Fp>)
    requires n > 0 && LengthPreserving(f)
    ensures |EachColumn(f, n, v)| == |v|
    decreases |v|
  {
    if |v| >= n {
      EachLength(f, n, v[n..]);
    }
  }

  /** One operation after another, column by column. */
  lemma {:induction false} EachCompose(f: Poly -> Poly, g: Poly -> Poly, both: Poly -> Poly, n: nat, v: seq<Fp>)
    requires n > 0 && LengthPreserving(f)
    requires forall c: Poly :: |c| == n ==> g(f(c)) == both(c)
    ensures EachColumn(g, n, EachColumn(f, n, v)) == EachColumn(both, n, v)
    decreases |v|
  {
    if |v| >= n {
      EachCompose(f, g, both, n, v[n..]);
      EachCons(g, n, f(v[..n]), EachColumn(f, n, v[n..]));
    }
  }

  lemma {:induction false} EachIdentity(f: Poly -> Poly, n: nat, v: seq<Fp>)
    requires n > 0 && forall c: Poly :: |c| == n ==> f(c) == c
    ensures EachColumn(f, n, v) == v
    decreases |v|
  {
    if |v| >= n {
      EachIdentity(f, n, v[n..]);
      assert v == v[..n] + v[n..];
    }
  }

  lemma ColumnsLeft(num: nat, n: nat)
    requires num > 0
    ensures num * n == n + (num - 1) * n
  {
  }

  /** The loop over a batch: the columns in `done` are finished, those in `rest` still to come. */
  ghost predicate BatchProgress(f: Poly -> Poly, n: nat, pre: seq<Fp>, mid: seq<Fp>, done: seq<Fp>, rest: seq<Fp>,
                                left: nat)
    requires n > 0
  {
    |rest| == left * n && pre + EachColumn(f, n, mid) == done + EachColumn(f, n, rest)
  }

  lemma BatchStep(f: Poly -> Poly, n: nat, pre: seq<Fp>, mid: seq<Fp>, done: seq<Fp>, rest: seq<Fp>, post: seq<Fp>,
                  left: nat)
    returns (column: Poly, tail: seq<Fp>)
    requires n > 0 && left > 0 && BatchProgress(f, n, pre, mid, done, rest, left)
    ensures |column| == n
    ensures done + rest + post == done + column + (tail + post)
    ensures done + f(column) + (tail + post) == done + f(column) + tail + post
    ensures BatchProgress(f, n, pre, mid, done + f(column), tail, left - 1)
  {
    hide EachColumn, LengthPreserving;
    ColumnsLeft(left, n);
    column, tail := rest[..n], rest[n..];
    EachCons(f, n, column, tail);
    assert rest == column + tail;
    Regroup(done, column, tail, post);
    Regroup(done, f(column), tail, post);
    Regroup(done, f(column), EachColumn(f, n, tail), []);
  }

  lemma Regroup(a: seq<Fp>, b: seq<Fp>, c: seq<Fp>, d: seq<Fp>)
    ensures a + (b + c) == a + b + c && a + (b + c) + d == a + b + (c + d) == a + b + c + d
  {
  }

  /** Operations that are a single kernel launch. */
  datatype ColumnOp = Rescale(m: Fp) | Launch(kernel: Kernel, logH: nat)

  function Meaning(op: ColumnOp, order: nat, k: nat): Poly -> Poly
    requires 1 <= order <= 32
  {
    match op
    case Rescale(m) => Rescaling(k, m)
    case Launch(kernel, logH) => (c: Poly) => Stage(kernel, order, c, Pow2(logH), 0)
  }

  method OnColumnInPlace(op: ColumnOp, order: nat, k: nat, a: array<Fp>, base: nat,
                         ghost pre: seq<Fp>, ghost column: Poly, ghost post: seq<Fp>)
    requires 1 <= order <= 32 && (op.Launch? ==> op.logH < k)
    requires a[..] == pre + column + post && |pre| == base && |column| == Pow2(k)
    modifies a
    ensures a[..] == pre + Meaning(op, order, k)(column) + post
  {
    match op
    case Rescale(m) =>
      RescaleInPlace(a, base, k, m, pre, column, post);
    case Launch(kernel, logH) =>
      Pow2Multiple(k, logH + 1);
      StageInPlace(kernel, order, a, base, Pow2(k), Pow2(logH), pre, column, post);
  }

  /** The next column of a batch. */
  method NextColumn(op: ColumnOp, order: nat, k: nat, a: array<Fp>, at: nat, ghost f: Poly -> Poly, ghost pre: seq<Fp>,
                    ghost mid: seq<Fp>, ghost post: seq<Fp>, ghost done: seq<Fp>, ghost rest: seq<Fp>, ghost left: nat)
    returns (ghost done': seq<Fp>, ghost rest': seq<Fp>)
    requires 1 <= order <= 32 && (op.Launch? ==> op.logH < k) && f == Meaning(op, order, k) && LengthPreserving(f)
    requires at == |done| && a[..] == done + rest + post && left > 0
    requires BatchProgress(f, Pow2(k), pre, mid, done, rest, left)
    modifies a
    ensures |done'| == at + Pow2(k) && a[..] == done' + rest' + post
    ensures BatchProgress(f, Pow2(k), pre, mid, done', rest', left - 1)
  {
    ghost var column, tail := BatchStep(f, Pow2(k), pre, mid, done, rest, post, left);
    OnColumnInPlace(op, order, k, a, at, done, column, tail + post);
    done', rest' := done + f(column), tail;
  }

  /** One kernel launch over a batch of `num` columns stored at `base` between `pre` and `post`. */
  method BatchLaunch(op: ColumnOp, order: nat, k: nat, a: array<Fp>, base: nat, num: nat,
                     ghost f: Poly -> Poly, ghost pre: seq<Fp>, ghost mid: seq<Fp>, ghost post: seq<Fp>)
    requires 1 <= order <= 32 && (op.Launch? ==> op.logH < k) && f == Meaning(op, order, k) && LengthPreserving(f)
    requires a[..] == pre + mid + post && |pre| == base && |mid| == num * Pow2(k)
    modifies a
    ensures a[..] == pre + EachColumn(f, Pow2(k), mid) + post
  {
    ghost var done, rest := pre, mid;
    var at, left := base, num;
    while left > 0
      invariant left >= 0 && at == |done| && a[..] == done + rest + post
      invariant BatchProgress(f, Pow2(k), pre, mid, done, rest, left)
    {
      done, rest := NextColumn(op, order, k, a, at, f, pre, mid, post, done, rest, left);
      at, left := at + Pow2(k), left - 1;
    }
    BatchFinished(f, Pow2(k), pre, mid, done, rest);
  }

  lemma BatchFinished(f: Poly -> Poly, n: nat, pre: seq<Fp>, mid: seq<Fp>, done: seq<Fp>, rest: seq<Fp>)
    requires n > 0 && BatchProgress(f, n, pre, mid, done, rest, 0)
    ensures rest == [] && done == pre + EachColumn(f, n, mid)
  {
  }

  // ---- The transforms ----

  /** `batch_mul_exp` on a column of size 2^k. */
  function Rescaling(k: nat, m: Fp): Poly -> Poly
  {
    (c: Poly) => MulExp(c, k, m)
  }

  function ForwardUpTo(order: nat, k: nat, s: nat): Poly -> Poly
    requires 1 <= order <= 32 && s <= k
  {
    (c: Poly) => ForwardStages(order, c, k, s)
  }

  function BackwardUpTo(order: nat, k: nat, s: nat): Poly -> Poly
    requires 1 <= order <= 32
  {
    (c: Poly) => InverseStages(order, c, k, s)
  }

  lemma MeaningPreservesLength(op: ColumnOp, order: nat, k: nat)
    requires 1 <= order <= 32
    ensures LengthPreserving(Meaning(op, order, k))
  {
  }

  method BatchMulExp(order: nat, k: nat, a: array<Fp>, base: nat, num: nat, m: Fp,
                     ghost pre: seq<Fp>, ghost mid: seq<Fp>, ghost post: seq<Fp>)
    requires 1 <= order <= 32
    requires a[..] == pre + mid + post && |pre| == base && |mid| == num * Pow2(k)
    modifies a
    ensures a[..] == pre + EachColumn(Rescaling(k, m), Pow2(k), mid) + post
  {
    MeaningPreservesLength(Rescale(m), order, k);
    BatchLaunch(Rescale(m), order, k, a, base, num, Meaning(Rescale(m), order, k), pre, mid, post);
  }

  /** `batch_ntt_internal` from natural to bit-reversed order: one launch per stage; it refuses a size of one. */
  method BatchForward(order: nat, k: nat, a: array<Fp>, base: nat, num: nat,
                      ghost pre: seq<Fp>, ghost mid: seq<Fp>, ghost post: seq<Fp>) returns (ok: bool)
    requires 1 <= order <= 32
    requires a[..] == pre + mid + post && |pre| == base && |mid| == num * Pow2(k)
    modifies a
    ensures ok <==> k >= 1
    ensures ok ==> a[..] == pre + EachColumn(ForwardUpTo(order, k, k), Pow2(k), mid) + post
    ensures !ok ==> a[..] == old(a[..])
  {
    ok := k >= 1;
    if !ok {
      return;
    }
    EachIdentity(ForwardUpTo(order, k, 0), Pow2(k), mid);
    ghost var now := mid;
    for stage := 0 to k
      invariant now == EachColumn(ForwardUpTo(order, k, stage), Pow2(k), mid) && |now| == |mid|
      invariant a[..] == pre + now + post
    {
      var op := Launch(N2B, k - 1 - stage);
      MeaningPreservesLength(op, order, k);
      BatchLaunch(op, order, k, a, base, num, Meaning(op, order, k), pre, now, post);
      now := ForwardLaunch(order, k, mid, stage, op);
    }
  }

  lemma ForwardLaunch(order: nat, k: nat, mid: seq<Fp>, stage: nat, op: ColumnOp) returns (next: seq<Fp>)
    requires 1 <= order <= 32 && stage < k && op == Launch(N2B, k - 1 - stage)
    ensures next == EachColumn(Meaning(op, order, k), Pow2(k), EachColumn(ForwardUpTo(order, k, stage), Pow2(k), mid))
    ensures next == EachColumn(ForwardUpTo(order, k, stage + 1), Pow2(k), mid) && |next| == |mid|
  {
    var f, g := ForwardUpTo(order, k, stage), ForwardUpTo(order, k, stage + 1);
    EachCompose(f, Meaning(op, order, k), g, Pow2(k), mid);
    next := EachColumn(g, Pow2(k), mid);
    EachLength(g, Pow2(k), mid);
  }

  /**
   * `batch_ntt_internal` back from bit-reversed order; the last launch divides by the size. It refuses a size of one.
   */
  method BatchInverse(order: nat, k: nat, a: array<Fp>, base: nat, num: nat,
                      ghost pre: seq<Fp>, ghost mid: seq<Fp>, ghost post: seq<Fp>) returns (ok: bool)
    requires 1 <= order <= 32
    requires a[..] == pre + mid + post && |pre| == base && |mid| == num * Pow2(k)
    modifies a
    ensures ok <==> k >= 1
    ensures ok ==> a[..] == pre + EachColumn(BackwardUpTo(order, k, k), Pow2(k), mid) + post
    ensures !ok ==> a[..] == old(a[..])
  {
    ok := k >= 1;
    if !ok {
      return;
    }
    EachIdentity(BackwardUpTo(order, k, 0), Pow2(k), mid);
    ghost var now := mid;
    for stage := 0 to k
      invariant now == EachColumn(BackwardUpTo(order, k, stage), Pow2(k), mid) && |now| == |mid|
      invariant a[..] == pre + now + post
    {
      var op := Launch(B2N(if stage + 1 == k then InverseSize(k) else 1), stage);
      MeaningPreservesLength(op, order, k);
      BatchLaunch(op, order, k, a, base, num, Meaning(op, order, k), pre, now, post);
      now := BackwardLaunch(order, k, mid, stage, op);
    }
  }

  lemma BackwardLaunch(order: nat, k: nat, mid: seq<Fp>, stage: nat, op: ColumnOp) returns (next: seq<Fp>)
    requires 1 <= order <= 32 && stage < k && op == Launch(B2N(LaunchFactor(k, stage + 1)), stage)
    ensures next == EachColumn(Meaning(op, order, k), Pow2(k), EachColumn(BackwardUpTo(order, k, stage), Pow2(k), mid))
    ensures next == EachColumn(BackwardUpTo(order, k, stage + 1), Pow2(k), mid) && |next| == |mid|
  {
    var f, g := BackwardUpTo(order, k, stage), BackwardUpTo(order, k, stage + 1);
    EachCompose(f, Meaning(op, order, k), g, Pow2(k), mid);
    next := EachColumn(g, Pow2(k), mid);
    EachLength(g, Pow2(k), mid);
  }
}
