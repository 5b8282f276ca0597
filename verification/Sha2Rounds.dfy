// The round loop on values: the rolling window of 16 words refines the message schedule.
module Sha2Rounds {
  import opened Bits
  import opened BitStrings
  import opened Sha2

  // ---- Addition modulo the word size ----

  lemma ModAddLeft(a: nat, b: nat, m: nat, r: nat, sum: nat)
    requires m > 0 && r == a % m && sum == a + b
    ensures (r + b) % m == sum % m
  {
    var q := a / m;
    var q', r' := (r + b) / m, (r + b) % m;
    assert a == q * m + r && r + b == q' * m + r';
    assert (q + q') * m == q * m + q' * m;
    DivModUnique(sum, m, q + q', r');
  }

  lemma PlusComm(v: Variant, a: nat, b: nat)
    ensures Plus(v, a, b) == Plus(v, b, a)
  {
  }

  lemma PlusAssoc(v: Variant, a: nat, b: nat, c: nat)
    ensures Plus(v, Plus(v, a, b), c) == Plus(v, a, Plus(v, b, c))
  {
    hide Pow2;
    ModAddLeft(a + b, c, Pow2(v.W()), Plus(v, a, b), a + b + c);
    ModAddLeft(b + c, a, Pow2(v.W()), Plus(v, b, c), a + b + c);
    PlusComm(v, a, Plus(v, b, c));
  }

  /** The order in which the code adds up the next word of the schedule. */
  lemma NextWordOrder(v: Variant, back2: nat, back7: nat, back15: nat, back16: nat)
    ensures Plus(v, back16, Plus(v, Plus(v, SigmaWord(v, v.sigma0, back15), SigmaWord(v, v.sigma1, back2)), back7))
         == NextWord(v, back2, back7, back15, back16)
  {
    var s0, s1 := SigmaWord(v, v.sigma0, back15), SigmaWord(v, v.sigma1, back2);
    PlusComm(v, back16, Plus(v, Plus(v, s0, s1), back7));
    PlusComm(v, s0, s1);
    PlusAssoc(v, s1, s0, back7);
    PlusComm(v, s0, back7);
    PlusAssoc(v, s1, back7, s0);
  }

  // ---- The rolling window ----

  function ScheduleOf(v: Variant, block: seq<nat>): nat -> nat
    requires |block| == 16
  {
    (t: nat) => Schedule(v, block, t)
  }

  /** Before round i the window holds the last 16 words of the schedule, each in the slot of its index modulo 16. */
  ghost predicate Window(schedule: nat -> nat, window: seq<nat>, i: nat)
  {
    && |window| == (if i < 16 then i else 16)
    && forall t: nat :: i <= t + 16 && t < i ==> window[t % 16] == schedule(t)
  }

  /** The 16 words of the block fill the window one by one. */
  lemma WindowFill(schedule: nat -> nat, window: seq<nat>, i: nat)
    requires i < 16 && Window(schedule, window, i)
    ensures Window(schedule, window + [schedule(i)], i + 1)
  {
    forall t: nat | i + 1 <= t + 16 && t < i + 1
      ensures (window + [schedule(i)])[t % 16] == schedule(t)
    {
      if t < i {
        assert window[t % 16] == schedule(t);
      }
    }
  }

  /** From then on each round overwrites the oldest word with the next one. */
  lemma WindowRoll(schedule: nat -> nat, window: seq<nat>, i: nat)
    requires i >= 16 && Window(schedule, window, i)
    ensures Window(schedule, window[i % 16 := schedule(i)], i + 1)
  {
    forall t: nat | i + 1 <= t + 16 && t < i + 1
      ensures window[i % 16 := schedule(i)][t % 16] == schedule(t)
    {
      if t < i {
        assert window[t % 16] == schedule(t);
        assert t % 16 != i % 16;
      }
    }
  }

  /** The slots that the code reads hold the words that the schedule refers back to. */
  lemma WindowReads(schedule: nat -> nat, window: seq<nat>, i: nat)
    requires i >= 16 && Window(schedule, window, i)
    ensures window[(i + 14) % 16] == schedule(i - 2) && window[(i + 9) % 16] == schedule(i - 7)
    ensures window[(i + 1) % 16] == schedule(i - 15) && window[i % 16] == schedule(i - 16)
  {
    assert (i - 2) % 16 == (i + 14) % 16 && (i - 7) % 16 == (i + 9) % 16;
    assert (i - 15) % 16 == (i + 1) % 16 && (i - 16) % 16 == i % 16;
  }

  // ---- The round loop ----

  ghost predicate Progress(v: Variant, start: Working, now: Working, block: seq<nat>, window: seq<nat>, i: nat)
  {
    |block| == 16 && i <= |v.k| && now == Rounds(v, start, block, i) && Window(ScheduleOf(v, block), window, i)
  }

  lemma ProgressEarly(v: Variant, start: Working, now: Working, block: seq<nat>, window: seq<nat>, i: nat)
    requires Progress(v, start, now, block, window, i) && i < 16 && i < |v.k|
    ensures Progress(v, start, Round(v, now, v.k[i], block[i]), block, window + [block[i]], i + 1)
  {
    WindowFill(ScheduleOf(v, block), window, i);
  }

  lemma ProgressLate(v: Variant, start: Working, now: Working, block: seq<nat>, window: seq<nat>, i: nat, next: nat)
    requires Progress(v, start, now, block, window, i) && 16 <= i < |v.k|
    requires next == NextWord(v, window[(i + 14) % 16], window[(i + 9) % 16], window[(i + 1) % 16], window[i % 16])
    ensures next == Schedule(v, block, i)
    ensures Progress(v, start, Round(v, now, v.k[i], next), block, window[i % 16 := next], i + 1)
  {
    WindowReads(ScheduleOf(v, block), window, i);
    WindowRoll(ScheduleOf(v, block), window, i);
  }

  lemma {:induction false} WordsCount(w: nat, b: seq<bool>, n: nat)
    requires w > 0 && |b| == n * w
    ensures |Words(w, b)| == n
    decreases n
  {
    if n > 0 {
      assert n * w == w + (n - 1) * w;
      WordsCount(w, b[w..], n - 1);
    }
  }

  /** Word i of a block. */
  lemma {:induction false} WordOfBlock(w: nat, b: seq<bool>, n: nat, i: nat, at: nat)
    requires w > 0 && |b| == n * w && i < n && at == i * w
    ensures at + w <= |b| && i < |Words(w, b)| && Words(w, b)[i] == Nat(b[at..at + w])
    decreases n
  {
    assert n * w == w + (n - 1) * w;
    WordsCount(w, b, n);
    if i > 0 {
      assert i * w == w + (i - 1) * w;
      WordOfBlock(w, b[w..], n - 1, i - 1, at - w);
      assert b[w..][at - w..at] == b[at..at + w];
    }
  }
}
