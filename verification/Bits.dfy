// Powers of two and the bit reversal of indexes.
module Bits {

  function Pow2(n: nat): (p: nat)
    ensures p >= 1
  {
    if n == 0 then 1 else 2 * Pow2(n - 1)
  }

  lemma {:induction false} Pow2Add(a: nat, b: nat)
    ensures Pow2(a + b) == Pow2(a) * Pow2(b)
  {
    if a > 0 {
      Pow2Add(a - 1, b);
      assert 2 * (Pow2(a - 1) * Pow2(b)) == (2 * Pow2(a - 1)) * Pow2(b);
    }
  }

  lemma PowerOf32(n: nat)
    requires n == 32
    ensures Pow2(n) == 0x1_0000_0000
  {
    var a := n / 32;
    assert Pow2(a) == 2 * Pow2(a - 1);
    Pow2Add(a, a);
    Pow2Add(2 * a, 2 * a);
    Pow2Add(4 * a, 4 * a);
    Pow2Add(8 * a, 8 * a);
    Pow2Add(16 * a, 16 * a);
  }

  /** `n` is a multiple of `m`, by counting down. */
  ghost predicate Multiple(n: nat, m: nat)
    requires m > 0
  {
    n == 0 || (n >= m && Multiple(n - m, m))
  }

  lemma {:induction false} MultipleSum(a: nat, b: nat, m: nat)
    requires m > 0 && Multiple(a, m) && Multiple(b, m)
    ensures Multiple(a + b, m)
  {
    if a > 0 {
      MultipleSum(a - m, b, m);
    }
  }

  lemma {:induction false} MultipleProduct(q: nat, m: nat)
    requires m > 0
    ensures Multiple(m * q, m)
  {
    if q > 0 {
      assert m * q == m + m * (q - 1);
      MultipleProduct(q - 1, m);
    }
  }

  lemma {:induction false} Pow2Multiple(k: nat, j: nat)
    requires j <= k
    ensures Multiple(Pow2(k), Pow2(j))
  {
    if j < k {
      Pow2Multiple(k - 1, j);
      MultipleSum(Pow2(k - 1), Pow2(k - 1), Pow2(j));
    }
  }

  lemma {:induction false} Pow2Monotone(a: nat, b: nat)
    requires a <= b
    ensures Pow2(a) <= Pow2(b)
  {
    if a < b {
      Pow2Monotone(a, b - 1);
    }
  }

  lemma MultipleAtLeast(x: int, d: nat)
    ensures x >= 1 ==> x * d >= d
    ensures x <= -1 ==> x * d + d <= 0
  {
    assert x * d == (x - 1) * d + d == (x + 1) * d - d;
  }

  lemma DivModUnique(n: int, d: nat, q: int, r: nat)
    requires r < d && n == q * d + r
    ensures n / d == q && n % d == r
  {
    var q', r' := n / d, n % d;
    assert n == q' * d + r' && 0 <= r' < d;
    SameQuotient(q, q', d, r, r');
  }

  lemma SameQuotient(q: int, q': int, d: nat, r: nat, r': nat)
    requires r < d && r' < d && q * d + r == q' * d + r'
    ensures q == q'
  {
    assert (q - q') * d == q * d - q' * d;
    MultipleAtLeast(q - q', d);
  }

  lemma QuotientRange(p: nat, n: nat, b: nat)
    requires n > 0
    ensures p / n == b <==> b * n <= p < b * n + n
  {
    if b * n <= p < b * n + n {
      DivModUnique(p, n, b, p - b * n);
    }
  }

  lemma QuotientBelow(p: nat, n: nat, b: nat)
    requires n > 0 && p < b * n
    ensures p / n < b
  {
    var q := p / n;
    MultipleAtLeast(q - b, n);
    assert (q - b) * n == q * n - b * n;
  }

  /** The `bits`-bit reversal of `i`; bits of `i` above the lowest `bits` are ignored. */
  function Rev(bits: nat, i: nat): (r: nat)
    ensures r < Pow2(bits)
  {
    if bits == 0 then 0 else Rev(bits - 1, i / 2) + Pow2(bits - 1) * (i % 2)
  }

  lemma HalveIndex(high: nat, p: nat, low: nat)
    ensures (high * (2 * p) + low) / 2 == high * p + low / 2
    ensures (high * (2 * p) + low) % 2 == low % 2
  {
    assert high * (2 * p) == 2 * (high * p);
  }

  lemma CombineReversals(low: nat, high: nat, p: nat, q: nat, b: nat)
    ensures low * q + high + (p * q) * b == (low + p * b) * q + high
  {
    assert (p * q) * b == (p * b) * q;
  }

  /** One unfolding of `Rev` on an index split as twice a half plus a bit. */
  lemma RevStep(bits: nat, i: nat, half: nat, b: nat)
    requires bits > 0 && i / 2 == half && i % 2 == b
    ensures Rev(bits, i) == Rev(bits - 1, half) + Pow2(bits - 1) * b
  {
  }

  /** Reversing the concatenation of two bit strings reverses both and swaps them. */
  lemma {:induction false} RevConcat(lowBits: nat, highBits: nat, low: nat, high: nat)
    requires low < Pow2(lowBits)
    ensures Rev(lowBits + highBits, high * Pow2(lowBits) + low)
         == Rev(lowBits, low) * Pow2(highBits) + Rev(highBits, high)
  {
    if lowBits == 0 {
      assert high * 1 + low == high;
    } else {
      var p, q := Pow2(lowBits - 1), Pow2(highBits);
      RevConcat(lowBits - 1, highBits, low / 2, high);
      RevConcatStep(lowBits, highBits, low, high, p, q);
    }
  }

  lemma RevConcatStep(lowBits: nat, highBits: nat, low: nat, high: nat, p: nat, q: nat)
    requires lowBits > 0 && p == Pow2(lowBits - 1) && q == Pow2(highBits)
    requires Rev(lowBits - 1 + highBits, high * p + low / 2) == Rev(lowBits - 1, low / 2) * q + Rev(highBits, high)
    ensures Rev(lowBits + highBits, high * Pow2(lowBits) + low) == Rev(lowBits, low) * q + Rev(highBits, high)
  {
    HalveIndex(high, p, low);
    RevStep(lowBits + highBits, high * (2 * p) + low, high * p + low / 2, low % 2);
    RevStep(lowBits, low, low / 2, low % 2);
    Pow2Add(lowBits - 1, highBits);
    CombineReversals(Rev(lowBits - 1, low / 2), Rev(highBits, high), p, q, low % 2);
  }

  lemma {:induction false} RevZero(bits: nat)
    ensures Rev(bits, 0) == 0
  {
    if bits > 0 {
      RevZero(bits - 1);
      RevStep(bits, 0, 0, 0);
    }
  }

  lemma RevEvenOdd(bits: nat, i: nat)
    ensures Rev(bits + 1, 2 * i) == Rev(bits, i)
    ensures Rev(bits + 1, 2 * i + 1) == Rev(bits, i) + Pow2(bits)
  {
    RevStep(bits + 1, 2 * i, i, 0);
    RevStep(bits + 1, 2 * i + 1, i, 1);
  }

  lemma RevPad(bits: nat, extra: nat, i: nat)
    requires i < Pow2(bits)
    ensures Rev(bits + extra, i) == Pow2(extra) * Rev(bits, i)
  {
    RevConcat(bits, extra, i, 0);
    RevZero(extra);
    assert Rev(bits, i) * Pow2(extra) == Pow2(extra) * Rev(bits, i);
  }

  lemma RevOne(b: nat)
    requires b < 2
    ensures Rev(1, b) == b && Pow2(1) == 2
  {
    assert Pow2(0) == 1;
  }

  /** Bit reversal is an involution on indexes that fit, hence a permutation of them. */
  lemma {:induction false} RevInvolution(bits: nat, i: nat)
    requires i < Pow2(bits)
    ensures Rev(bits, Rev(bits, i)) == i
  {
    if bits > 0 {
      var half, b := i / 2, i % 2;
      RevInvolution(bits - 1, half);
      RevStep(bits, i, half, b);
      RevAppend(bits - 1, Rev(bits - 1, half), b, Rev(bits, i));
    }
  }

  /** Reversing one more high bit brings it to the front. */
  lemma RevAppend(bits: nat, low: nat, b: nat, i: nat)
    requires low < Pow2(bits) && b < 2 && i == low + Pow2(bits) * b
    ensures Rev(bits + 1, i) == 2 * Rev(bits, low) + b
  {
    hide Rev, Pow2;
    var one: nat := 1;
    RevConcat(bits, one, low, b);
    RevOne(b);
    assert b * Pow2(bits) + low == i;
    assert Rev(bits, low) * Pow2(one) == 2 * Rev(bits, low);
  }

  // ---- Recognising powers of two ----

  function TrailingZeros(n: nat): nat
    requires n > 0
  {
    if n % 2 == 1 then 0 else 1 + TrailingZeros(n / 2)
  }

  predicate PowerOfTwo(n: nat)
  {
    n > 0 && n == Pow2(TrailingZeros(n))
  }

  lemma {:induction false} Pow2IsPowerOfTwo(t: nat)
    ensures PowerOfTwo(Pow2(t)) && TrailingZeros(Pow2(t)) == t
  {
    if t > 0 {
      Pow2IsPowerOfTwo(t - 1);
    }
  }

  lemma PowerOfTwoExactly(n: nat)
    ensures PowerOfTwo(n) <==> exists t: nat :: n == Pow2(t)
  {
    if t: nat :| n == Pow2(t) {
      Pow2IsPowerOfTwo(t);
    }
  }

  lemma HalvePower(n: nat)
    requires n % 2 == 0 && n > 0
    ensures PowerOfTwo(n) <==> PowerOfTwo(n / 2)
  {
  }
}
