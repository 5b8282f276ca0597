// The kernels that rewrite a buffer of coefficient columns in place.
module Device {
  import opened Field
  import opened Bits
  import opened Roots
  import opened Ntt
  import opened Coset

  // ---- One column ----

  const POINTS_PER_THREAD: nat := 32

  /** What `mul_exp` does to a column of size 2^k: a size below 32 leaves every thread without work. */
  function MulExp(c: Poly, k: nat, m: Fp): (r: Poly)
    ensures |r| == |c|
  {
    if k < 5 then c else CosetScale(c, m)
  }

  /** The square-and-multiply loop of one `mul_exp` thread. */
  method ThreadPowers(g: nat, log: nat, m: Fp) returns (a: Fp, b: Fp)
    requires g < Pow2(log)
    ensures a == Pow(m, g) && b == Pow(m, Pow2(log))
  {
    a, b := 1, m;
    var c: nat, rest: nat := 0, g;
    SquareOf(m);
    MulOne(Pow(m, g));
    while c < log
      invariant c <= log && rest < Pow2(log - c)
      invariant b == Pow(m, Pow2(c))
      invariant Mul(a, Pow(b, rest)) == Pow(m, g)
    {
      SquareStep(a, b, rest, m, Pow2(c));
      if rest % 2 == 1 {
        a := Mul(a, b);
      }
      b := Mul(b, b);
      c, rest := c + 1, rest / 2;
    }
    MulOne(a);
  }

  lemma SquareStep(a: Fp, b: Fp, rest: nat, m: Fp, e: nat)
    requires b == Pow(m, e)
    ensures Mul(b, b) == Pow(m, 2 * e)
    ensures Mul(if rest % 2 == 1 then Mul(a, b) else a, Pow(Mul(b, b), rest / 2)) == Mul(a, Pow(b, rest))
  {
    PowAdd(m, e, e);
    SquareOf(b);
    PowMul(b, 2, rest / 2);
    PowAdd(b, rest % 2, 2 * (rest / 2));
    SquareOf(b);
    if rest % 2 == 1 {
      MulAssoc(a, b, Pow(Mul(b, b), rest / 2));
    } else {
      MulOne(Pow(b, 2 * (rest / 2)));
    }
  }

  // ---- Butterflies in place ----

  function LowOut(kernel: Kernel, x: Fp, y: Fp, t: Fp): Fp
  {
    match kernel
    case N2B => Add(x, Mul(y, t))
    case B2N(factor) => Mul(Add(x, y), factor)
  }

  function HighOut(kernel: Kernel, x: Fp, y: Fp, t: Fp): Fp
  {
    match kernel
    case N2B => Sub(x, Mul(y, t))
    case B2N(factor) => Mul(Mul(Sub(x, y), t), factor)
  }

  /** `after` is `before` with the first n pairs of the region at `at` exchanged. */
  ghost predicate ExchangedAt(kernel: Kernel, before: seq<Fp>, after: seq<Fp>, at: nat, h: nat, t: Fp, n: nat)
    requires at + 2 * h <= |before| && n <= h
  {
    && |after| == |before|
    && (forall i :: at <= i < at + n ==> after[i] == LowOut(kernel, before[i], before[i + h], t))
    && (forall i :: at + h <= i < at + h + n ==> after[i] == HighOut(kernel, before[i - h], before[i], t))
    && (forall i :: 0 <= i < |before| && !(at <= i < at + n) && !(at + h <= i < at + h + n) ==> after[i] == before[i])
  }

  lemma OnePairMore(kernel: Kernel, before: seq<Fp>, after: seq<Fp>, at: nat, h: nat, t: Fp, j: nat)
    requires j < h && at + 2 * h <= |before| && ExchangedAt(kernel, before, after, at, h, t, j)
    ensures var x, y := after[at + j], after[at + j + h];
            ExchangedAt(kernel, before,
                        after[at + j := LowOut(kernel, x, y, t)][at + j + h := HighOut(kernel, x, y, t)],
                        at, h, t, j + 1)
  {
    hide LowOut, HighOut;
  }

  /** The threads of one exchange region. */
  method ExchangeInPlace(kernel: Kernel, a: array<Fp>, at: nat, h: nat, t: Fp)
    requires at + 2 * h <= a.Length
    modifies a
    ensures ExchangedAt(kernel, old(a[..]), a[..], at, h, t, h)
  {
    hide LowOut, HighOut;
    ghost var before := a[..];
    for j: nat := 0 to h
      invariant ExchangedAt(kernel, before, a[..], at, h, t, j)
    {
      OnePairMore(kernel, before, a[..], at, h, t, j);
      var x, y := a[at + j], a[at + j + h];
      a[at + j] := LowOut(kernel, x, y, t);
      a[at + j + h] := HighOut(kernel, x, y, t);
    }
  }

  lemma ExchangeElement(kernel: Kernel, lo: Poly, hi: Poly, t: Fp, i: nat)
    requires i < |lo| == |hi|
    ensures Exchange(kernel, lo, hi, t)[i] == LowOut(kernel, lo[i], hi[i], t)
    ensures Exchange(kernel, lo, hi, t)[|lo| + i] == HighOut(kernel, lo[i], hi[i], t)
  {
  }

  /** The same, between the parts `done` and `rest` of a buffer that stay as they are. */
  lemma ExchangedWithin(kernel: Kernel, done: seq<Fp>, lo: Poly, hi: Poly, rest: seq<Fp>, after: seq<Fp>, t: Fp)
    requires |lo| == |hi| && |after| == |done + lo + hi + rest|
    requires ExchangedAt(kernel, done + lo + hi + rest, after, |done|, |lo|, t, |lo|)
    ensures after == done + Exchange(kernel, lo, hi, t) + rest
  {
    var before, r := done + lo + hi + rest, done + Exchange(kernel, lo, hi, t) + rest;
    forall i | 0 <= i < |after|
      ensures after[i] == r[i]
    {
      var at := if i < |done| then 0 else if i < |done| + |lo| then i - |done| else i - |done| - |lo|;
      if |done| <= i < |done| + 2 * |lo| {
        ExchangeElement(kernel, lo, hi, t, at);
        assert before[|done| + at] == lo[at] && before[|done| + |lo| + at] == hi[at];
      }
    }
  }

  /** One launch on one column, stored at `base` between `pre` and `post`. */
  method StageInPlace(kernel: Kernel, order: nat, a: array<Fp>, base: nat, n: nat, h: nat,
                      ghost pre: seq<Fp>, ghost mid: Poly, ghost post: seq<Fp>)
    requires 1 <= order <= 32 && h > 0 && Multiple(n, 2 * h)
    requires a[..] == pre + mid + post && |pre| == base && |mid| == n
    modifies a
    ensures a[..] == pre + Stage(kernel, order, mid, h, 0) + post
  {
    hide Stage;
    ghost var done, rest: Poly := pre, mid;
    var start: nat, e: nat := 0, 0;
    while start < n
      invariant start <= n && |done| == base + start && |rest| == n - start && Multiple(n - start, 2 * h)
      invariant a[..] == done + rest + post
      invariant pre + Stage(kernel, order, mid, h, 0) == done + Stage(kernel, order, rest, h, e)
    {
      done, rest := NextRegion(kernel, order, a, base + start, h, e, done, rest, post);
      start, e := start + 2 * h, e + 1;
    }
    StageOfNothing(kernel, order, rest, h, e);
  }

  /** The next exchange region of a launch. */
  method NextRegion(kernel: Kernel, order: nat, a: array<Fp>, at: nat, h: nat, e: nat,
                    ghost done: seq<Fp>, ghost rest: Poly, ghost post: seq<Fp>)
    returns (ghost done': seq<Fp>, ghost rest': Poly)
    requires 1 <= order <= 32 && h > 0 && 2 * h <= |rest| && |done| == at && a[..] == done + rest + post
    modifies a
    ensures |done'| == at + 2 * h && |rest'| == |rest| - 2 * h && a[..] == done' + rest' + post
    ensures done + Stage(kernel, order, rest, h, e) == done' + Stage(kernel, order, rest', h, e + 1)
  {
    hide Stage, Exchange, ExchangedAt, TableEntry;
    var t := TableEntry(kernel, order, e);
    ghost var lo, hi := rest[..h], rest[h..2 * h];
    SplitRegion(done, rest, post, h);
    ExchangeInPlace(kernel, a, at, h, t);
    ExchangedWithin(kernel, done, lo, hi, rest[2 * h..] + post, a[..], t);
    StageStep(kernel, order, done, rest, h, e);
    done', rest' := done + Exchange(kernel, lo, hi, t), rest[2 * h..];
    Regroup(done', rest', post);
  }

  lemma Regroup(a: seq<Fp>, b: seq<Fp>, c: seq<Fp>)
    ensures a + (b + c) == a + b + c
  {
  }

  lemma StageOfNothing(kernel: Kernel, order: nat, rest: Poly, h: nat, e: nat)
    requires 1 <= order <= 32 && h > 0 && rest == []
    ensures Stage(kernel, order, rest, h, e) == rest
  {
  }

  lemma SplitRegion(done: seq<Fp>, rest: Poly, post: seq<Fp>, h: nat)
    requires 2 * h <= |rest|
    ensures done + rest + post == done + rest[..h] + rest[h..2 * h] + (rest[2 * h..] + post)
  {
  }

  lemma StageStep(kernel: Kernel, order: nat, done: seq<Fp>, rest: Poly, h: nat, e: nat)
    requires 1 <= order <= 32 && h > 0 && 2 * h <= |rest|
    ensures done + Stage(kernel, order, rest, h, e)
         == done + Exchange(kernel, rest[..h], rest[h..2 * h], TableEntry(kernel, order, e))
            + Stage(kernel, order, rest[2 * h..], h, e + 1)
  {
  }

  // ---- Rescaling in place ----

  /** Index j of a column belongs to thread j % threads, which visits it in its (j / threads)-th step. */
  ghost predicate Visited(j: nat, threads: nat, g: nat, i: nat)
    requires threads > 0
  {
    j % threads < g || (j % threads == g && j / threads < i)
  }

  /** `now` is `was` with the visited elements of the column at `base` multiplied by their power of `m`. */
  ghost predicate Rescaled(was: seq<Fp>, now: seq<Fp>, base: nat, n: nat, m: Fp, threads: nat, g: nat, i: nat)
    requires threads > 0 && base + n <= |was| == |now|
  {
    && (forall p :: base <= p < base + n ==>
         now[p] == if Visited(p - base, threads, g, i) then Mul(was[p], Pow(m, p - base)) else was[p])
    && (forall p :: 0 <= p < |was| && !(base <= p < base + n) ==> now[p] == was[p])
  }

  lemma ThreadIndex(j: nat, threads: nat, g: nat, i: nat)
    requires g < threads
    ensures j == g + i * threads <==> j % threads == g && j / threads == i
  {
    if j == g + i * threads {
      DivModUnique(j, threads, i, g);
    }
  }

  lemma RescaleStep(was: seq<Fp>, now: seq<Fp>, next: seq<Fp>, base: nat, n: nat, m: Fp, threads: nat, g: nat, i: nat,
                    j: nat)
    requires g < threads && base + n <= |was| == |now| && j == g + i * threads < n
    requires Rescaled(was, now, base, n, m, threads, g, i)
    requires next == now[base + j := Mul(now[base + j], Pow(m, j))]
    ensures Rescaled(was, next, base, n, m, threads, g, i + 1)
  {
    forall p | base <= p < base + n
      ensures next[p] == if Visited(p - base, threads, g, i + 1) then Mul(was[p], Pow(m, p - base)) else was[p]
    {
      ThreadIndex(p - base, threads, g, i);
    }
  }

  lemma VisitedNext(j: nat, threads: nat, g: nat, steps: nat)
    requires g < threads && j < steps * threads
    ensures Visited(j, threads, g, steps) <==> Visited(j, threads, g + 1, 0)
  {
    QuotientBound(j, steps, threads);
  }

  lemma ThreadFinished(was: seq<Fp>, now: seq<Fp>, base: nat, n: nat, m: Fp, threads: nat, g: nat, steps: nat)
    requires g < threads && base + n <= |was| == |now| && n == steps * threads
    requires Rescaled(was, now, base, n, m, threads, g, steps)
    ensures Rescaled(was, now, base, n, m, threads, g + 1, 0)
  {
    hide Mul, Pow, Visited;
    forall p | base <= p < base + n
      ensures now[p] == if Visited(p - base, threads, g + 1, 0) then Mul(was[p], Pow(m, p - base)) else was[p]
    {
      VisitedNext(p - base, threads, g, steps);
    }
  }

  lemma QuotientBound(j: nat, steps: nat, threads: nat)
    requires j < steps * threads
    ensures threads > 0 && j / threads < steps
  {
    MultipleAtLeast(j / threads - steps + 1, threads);
  }

  lemma RescaledAll(pre: seq<Fp>, mid: Poly, post: seq<Fp>, now: seq<Fp>, m: Fp, threads: nat)
    requires threads > 0 && |now| == |pre + mid + post|
    requires Rescaled(pre + mid + post, now, |pre|, |mid|, m, threads, threads, 0)
    ensures now == pre + CosetScale(mid, m) + post
  {
    var was, r := pre + mid + post, pre + CosetScale(mid, m) + post;
    forall p | 0 <= p < |now|
      ensures now[p] == r[p]
    {
      if |pre| <= p < |pre| + |mid| {
        assert Visited(p - |pre|, threads, threads, 0);
        assert was[p] == mid[p - |pre|];
      }
    }
  }

  /** The threads of `mul_exp` on one column, stored at `base` between `pre` and `post`. */
  method RescaleInPlace(a: array<Fp>, base: nat, k: nat, m: Fp, ghost pre: seq<Fp>, ghost mid: Poly,
                        ghost post: seq<Fp>)
    requires a[..] == pre + mid + post && |pre| == base && |mid| == Pow2(k)
    modifies a
    ensures a[..] == pre + MulExp(mid, k, m) + post
  {
    var n := Pow2(k);
    var threads := n / POINTS_PER_THREAD;
    ThreadCount(k);
    if threads == 0 {
      return;
    }
    ghost var was := a[..];
    for g := 0 to threads
      invariant a.Length == |was| && Rescaled(was, a[..], base, n, m, threads, g, 0)
    {
      RescaleThread(a, base, n, k, m, threads, g, was);
      ThreadFinished(was, a[..], base, n, m, threads, g, POINTS_PER_THREAD);
    }
    RescaledAll(pre, mid, post, a[..], m, threads);
  }

  lemma ThreadCount(k: nat)
    ensures k < 5 ==> Pow2(k) / POINTS_PER_THREAD == 0
    ensures k >= 5 ==> Pow2(k) / POINTS_PER_THREAD == Pow2(k - 5) && Pow2(k) == POINTS_PER_THREAD * Pow2(k - 5)
  {
    if k >= 5 {
      Pow2Add(k - 5, 5);
      assert Pow2(5) == 32;
    } else {
      Pow2Monotone(k, 4);
      assert Pow2(4) == 16;
    }
  }

  lemma NextPoint(j: nat, g: nat, i: nat, threads: nat, steps: nat)
    requires j == g + i * threads && g < threads && i < steps
    ensures j < steps * threads && j + threads == g + (i + 1) * threads
  {
    MultipleAtLeast(steps - i, threads);
    assert (steps - i) * threads == steps * threads - i * threads;
  }

  method RescaleThread(a: array<Fp>, base: nat, n: nat, k: nat, m: Fp, threads: nat, g: nat, ghost was: seq<Fp>)
    requires k >= 5 && threads == Pow2(k - 5) && n == POINTS_PER_THREAD * threads && g < threads
    requires base + n <= a.Length == |was| && Rescaled(was, a[..], base, n, m, threads, g, 0)
    modifies a
    ensures Rescaled(was, a[..], base, n, m, threads, g, POINTS_PER_THREAD)
  {
    var factor, step := ThreadPowers(g, k - 5, m);
    var j: nat := g;
    for i: nat := 0 to POINTS_PER_THREAD
      invariant j == g + i * threads && factor == Pow(m, j) && step == Pow(m, threads)
      invariant Rescaled(was, a[..], base, n, m, threads, g, i)
    {
      NextPoint(j, g, i, threads, POINTS_PER_THREAD);
      ghost var now := a[..];
      a[base + j] := Mul(a[base + j], factor);
      RescaleStep(was, now, a[..], base, n, m, threads, g, i, j);
      PowAdd(m, j, threads);
      factor := Mul(factor, step);
      j := j + threads;
    }
  }
}
