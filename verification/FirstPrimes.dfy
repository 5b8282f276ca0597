// The numbers behind the SHA-2 constants are the first 80 primes.
module FirstPrimes {
  import opened Bits
  import opened Sha2Tables

  ghost predicate Prime(n: nat)
  {
    n >= 2 && forall d: nat :: 2 <= d < n ==> n % d != 0
  }

  // ---- Trial division ----

  /** Not divisible by any other prime up to 19. */
  predicate PassesTrial(n: nat)
  {
    && n >= 2
    && (n == 2 || n % 2 != 0) && (n == 3 || n % 3 != 0) && (n == 5 || n % 5 != 0) && (n == 7 || n % 7 != 0)
    && (n == 11 || n % 11 != 0) && (n == 13 || n % 13 != 0) && (n == 17 || n % 17 != 0) && (n == 19 || n % 19 != 0)
  }

  lemma DividesProduct(a: nat, d: nat, n: nat, q: nat)
    requires d > 0 && a > 0 && d % a == 0 && n == d * q
    ensures n % a == 0
  {
    var m := d / a;
    assert d == a * m && n == a * (m * q);
    DivModUnique(n, a, m * q, 0);
  }

  /** A number from 2 to 22 is divisible by a prime up to 19. */
  lemma SmallFactor(d: nat) returns (a: nat)
    requires 2 <= d <= 22
    ensures 2 <= a <= d && d % a == 0 && a in [2, 3, 5, 7, 11, 13, 17, 19]
  {
    a := if d % 2 == 0 then 2 else if d % 3 == 0 then 3 else if d % 5 == 0 then 5 else if d % 7 == 0 then 7 else d;
  }

  /** Two factors above 22 make a number of at least 23 * 23. */
  lemma LargeFactors(d: nat, q: nat)
    requires d >= 23 && q >= 23
    ensures d * q >= 529
  {
    assert (d - 23) * (q - 23) == d * q - 23 * d - 23 * q + 529;
  }

  lemma FailsTrial(n: nat, a: nat)
    requires a in [2, 3, 5, 7, 11, 13, 17, 19] && a < n && n % a == 0
    ensures !PassesTrial(n)
  {
  }

  lemma CompositeFails(n: nat, d: nat, q: nat)
    requires 2 <= d < n && 2 <= q < n < 529 && n == d * q
    ensures !PassesTrial(n)
  {
    hide PassesTrial;
    if d >= 23 && q >= 23 {
      LargeFactors(d, q);
      assert false;
    }
    var e, other := if d <= 22 then d else q, if d <= 22 then q else d;
    var a := SmallFactor(e);
    DividesProduct(a, e, n, other);
    FailsTrial(n, a);
  }

  lemma SmallCofactor(d: nat, q: nat)
    ensures q <= 1 ==> d * q <= d
  {
  }

  lemma Cofactor(n: nat, d: nat) returns (q: nat)
    requires 2 <= d < n && n % d == 0
    ensures 2 <= q < n && n == d * q
  {
    q := n / d;
    QuotientRange(n, d, q);
    assert n == d * q;
    SmallCofactor(d, q);
    MultipleAtLeast(d - 1, q);
    assert (d - 1) * q == n - q;
  }

  /** Below 23 * 23, trial division by the primes up to 19 decides primality. */
  lemma TrialDivision(n: nat)
    requires n < 529
    ensures PassesTrial(n) <==> Prime(n)
  {
    if n >= 2 && !Prime(n) {
      var d: nat :| 2 <= d < n && n % d == 0;
      var q := Cofactor(n, d);
      CompositeFails(n, d, q);
    }
  }

  // ---- The list ----

  predicate NonePasses(low: nat, high: nat)
    decreases high - low
  {
    low >= high || (!PassesTrial(low) && NonePasses(low + 1, high))
  }

  lemma {:induction false} NoneMeans(low: nat, high: nat, n: nat)
    requires NonePasses(low, high) && low <= n < high
    ensures !PassesTrial(n)
    decreases high - low
  {
    hide PassesTrial;
    if n > low {
      NoneMeans(low + 1, high, n);
    }
  }

  /** From `low` on, `p` is the first number that passes the trial division. */
  predicate FirstPassing(low: nat, p: nat)
  {
    low <= p && PassesTrial(p) && NonePasses(low, p)
  }

  /** From `low` on, `s` lists the numbers that pass the trial division one after the other. */
  predicate ListsPassing(low: nat, s: seq<nat>)
    decreases |s|
  {
    s == [] || (FirstPassing(low, s[0]) && ListsPassing(s[0] + 1, s[1..]))
  }

  /** Where the search goes on after the list. */
  function SearchFrom(low: nat, s: seq<nat>): nat
  {
    if s == [] then low else s[|s| - 1] + 1
  }

  lemma {:induction false} ListsConcat(low: nat, a: seq<nat>, b: seq<nat>)
    requires ListsPassing(low, a) && ListsPassing(SearchFrom(low, a), b)
    ensures ListsPassing(low, a + b)
    decreases |a|
  {
    hide FirstPassing;
    if a == [] {
      assert a + b == b;
    } else {
      ListsConcat(a[0] + 1, a[1..], b);
      assert (a + b)[1..] == a[1..] + b;
    }
  }

  lemma ListsTwo(low: nat, a: nat, b: nat)
    requires FirstPassing(low, a) && FirstPassing(a + 1, b)
    ensures ListsPassing(low, [a, b])
  {
    hide FirstPassing;
    assert [a, b][1..] == [b] && [b][1..] == [];
    assert ListsPassing(a + 1, [b]);
  }

  lemma ListsEight(low: nat, a: nat, b: nat, c: nat, d: nat, e: nat, f: nat, g: nat, h: nat)
    requires FirstPassing(low, a) && FirstPassing(a + 1, b) && FirstPassing(b + 1, c) && FirstPassing(c + 1, d)
    requires FirstPassing(d + 1, e) && FirstPassing(e + 1, f) && FirstPassing(f + 1, g) && FirstPassing(g + 1, h)
    ensures ListsPassing(low, [a, b, c, d, e, f, g, h])
  {
    hide FirstPassing, ListsPassing;
    ListsTwo(low, a, b);
    ListsTwo(b + 1, c, d);
    ListsTwo(d + 1, e, f);
    ListsTwo(f + 1, g, h);
    ListsConcat(low, [a, b], [c, d]);
    ListsConcat(low, [a, b] + [c, d], [e, f]);
    ListsConcat(low, [a, b] + [c, d] + [e, f], [g, h]);
    assert [a, b] + [c, d] + [e, f] + [g, h] == [a, b, c, d, e, f, g, h];
  }

  /** Up to its last entry such a list has exactly the numbers that pass. */
  lemma {:induction false} PassingListed(low: nat, s: seq<nat>, n: nat)
    requires ListsPassing(low, s) && n < SearchFrom(low, s)
    ensures n in s <==> low <= n && PassesTrial(n)
    decreases |s|
  {
    hide PassesTrial, NonePasses;
    if s != [] {
      assert s == [s[0]] + s[1..];
      if n > s[0] {
        PassingListed(s[0] + 1, s[1..], n);
      } else {
        NotBelow(s[0] + 1, s[1..], n);
        if low <= n < s[0] {
          NoneMeans(low, s[0], n);
        }
      }
    }
  }

  lemma {:induction false} NotBelow(low: nat, s: seq<nat>, n: nat)
    requires ListsPassing(low, s) && n < low
    ensures n !in s
    decreases |s|
  {
    hide PassesTrial, NonePasses;
    if s != [] {
      NotBelow(s[0] + 1, s[1..], n);
      assert s == [s[0]] + s[1..];
    }
  }

  lemma {:induction false} AtLeast(low: nat, s: seq<nat>, j: nat)
    requires ListsPassing(low, s) && j < |s|
    ensures low <= s[j]
    decreases |s|
  {
    hide PassesTrial, NonePasses;
    if j > 0 {
      AtLeast(s[0] + 1, s[1..], j - 1);
    }
  }

  lemma {:induction false} ListAscends(low: nat, s: seq<nat>, i: nat, j: nat)
    requires ListsPassing(low, s) && i < j < |s|
    ensures s[i] < s[j]
    decreases |s|
  {
    hide FirstPassing;
    if i > 0 {
      ListAscends(s[0] + 1, s[1..], i - 1, j - 1);
    } else {
      AtLeast(s[0] + 1, s[1..], j - 1);
    }
  }

  lemma FirstHalf0()
    ensures FirstPassing(0, 2) && FirstPassing(3, 3) && FirstPassing(4, 5) && FirstPassing(6, 7)
  {
  }

  lemma SecondHalf0()
    ensures FirstPassing(8, 11) && FirstPassing(12, 13) && FirstPassing(14, 17) && FirstPassing(18, 19)
  {
  }

  lemma Row0()
    ensures ListsPassing(0, PRIMES_0)
  {
    hide ListsPassing, FirstPassing;
    FirstHalf0();
    SecondHalf0();
    ListsEight(0, 2, 3, 5, 7, 11, 13, 17, 19);
  }

  lemma FirstHalf1()
    ensures FirstPassing(20, 23) && FirstPassing(24, 29) && FirstPassing(30, 31) && FirstPassing(32, 37)
  {
  }

  lemma SecondHalf1()
    ensures FirstPassing(38, 41) && FirstPassing(42, 43) && FirstPassing(44, 47) && FirstPassing(48, 53)
  {
  }

  lemma Row1()
    ensures ListsPassing(20, PRIMES_1)
  {
    hide ListsPassing, FirstPassing;
    FirstHalf1();
    SecondHalf1();
    ListsEight(20, 23, 29, 31, 37, 41, 43, 47, 53);
  }

  lemma FirstHalf2()
    ensures FirstPassing(54, 59) && FirstPassing(60, 61) && FirstPassing(62, 67) && FirstPassing(68, 71)
  {
  }

  lemma SecondHalf2()
    ensures FirstPassing(72, 73) && FirstPassing(74, 79) && FirstPassing(80, 83) && FirstPassing(84, 89)
  {
  }

  lemma Row2()
    ensures ListsPassing(54, PRIMES_2)
  {
    hide ListsPassing, FirstPassing;
    FirstHalf2();
    SecondHalf2();
    ListsEight(54, 59, 61, 67, 71, 73, 79, 83, 89);
  }

  lemma FirstHalf3()
    ensures FirstPassing(90, 97) && FirstPassing(98, 101) && FirstPassing(102, 103) && FirstPassing(104, 107)
  {
  }

  lemma SecondHalf3()
    ensures FirstPassing(108, 109) && FirstPassing(110, 113) && FirstPassing(114, 127) && FirstPassing(128, 131)
  {
  }

  lemma Row3()
    ensures ListsPassing(90, PRIMES_3)
  {
    hide ListsPassing, FirstPassing;
    FirstHalf3();
    SecondHalf3();
    ListsEight(90, 97, 101, 103, 107, 109, 113, 127, 131);
  }

  lemma FirstHalf4()
    ensures FirstPassing(132, 137) && FirstPassing(138, 139) && FirstPassing(140, 149) && FirstPassing(150, 151)
  {
  }

  lemma SecondHalf4()
    ensures FirstPassing(152, 157) && FirstPassing(158, 163) && FirstPassing(164, 167) && FirstPassing(168, 173)
  {
  }

  lemma Row4()
    ensures ListsPassing(132, PRIMES_4)
  {
    hide ListsPassing, FirstPassing;
    FirstHalf4();
    SecondHalf4();
    ListsEight(132, 137, 139, 149, 151, 157, 163, 167, 173);
  }

  lemma FirstHalf5()
    ensures FirstPassing(174, 179) && FirstPassing(180, 181) && FirstPassing(182, 191) && FirstPassing(192, 193)
  {
  }

  lemma SecondHalf5()
    ensures FirstPassing(194, 197) && FirstPassing(198, 199) && FirstPassing(200, 211) && FirstPassing(212, 223)
  {
  }

  lemma Row5()
    ensures ListsPassing(174, PRIMES_5)
  {
    hide ListsPassing, FirstPassing;
    FirstHalf5();
    SecondHalf5();
    ListsEight(174, 179, 181, 191, 193, 197, 199, 211, 223);
  }

  lemma FirstHalf6()
    ensures FirstPassing(224, 227) && FirstPassing(228, 229) && FirstPassing(230, 233) && FirstPassing(234, 239)
  {
  }

  lemma SecondHalf6()
    ensures FirstPassing(240, 241) && FirstPassing(242, 251) && FirstPassing(252, 257) && FirstPassing(258, 263)
  {
  }

  lemma Row6()
    ensures ListsPassing(224, PRIMES_6)
  {
    hide ListsPassing, FirstPassing;
    FirstHalf6();
    SecondHalf6();
    ListsEight(224, 227, 229, 233, 239, 241, 251, 257, 263);
  }

  lemma FirstHalf7()
    ensures FirstPassing(264, 269) && FirstPassing(270, 271) && FirstPassing(272, 277) && FirstPassing(278, 281)
  {
  }

  lemma SecondHalf7()
    ensures FirstPassing(282, 283) && FirstPassing(284, 293) && FirstPassing(294, 307) && FirstPassing(308, 311)
  {
  }

  lemma Row7()
    ensures ListsPassing(264, PRIMES_7)
  {
    hide ListsPassing, FirstPassing;
    FirstHalf7();
    SecondHalf7();
    ListsEight(264, 269, 271, 277, 281, 283, 293, 307, 311);
  }

  lemma FirstHalf8()
    ensures FirstPassing(312, 313) && FirstPassing(314, 317) && FirstPassing(318, 331) && FirstPassing(332, 337)
  {
  }

  lemma SecondHalf8()
    ensures FirstPassing(338, 347) && FirstPassing(348, 349) && FirstPassing(350, 353) && FirstPassing(354, 359)
  {
  }

  lemma Row8()
    ensures ListsPassing(312, PRIMES_8)
  {
    hide ListsPassing, FirstPassing;
    FirstHalf8();
    SecondHalf8();
    ListsEight(312, 313, 317, 331, 337, 347, 349, 353, 359);
  }

  lemma FirstHalf9()
    ensures FirstPassing(360, 367) && FirstPassing(368, 373) && FirstPassing(374, 379) && FirstPassing(380, 383)
  {
  }

  lemma SecondHalf9()
    ensures FirstPassing(384, 389) && FirstPassing(390, 397) && FirstPassing(398, 401) && FirstPassing(402, 409)
  {
  }

  lemma Row9()
    ensures ListsPassing(360, PRIMES_9)
  {
    hide ListsPassing, FirstPassing;
    FirstHalf9();
    SecondHalf9();
    ListsEight(360, 367, 373, 379, 383, 389, 397, 401, 409);
  }

  lemma WholeList()
    ensures ListsPassing(0, PRIMES) && |PRIMES| == 80 && PRIMES[79] == 409
  {
    Row0();
    Row1();
    Row2();
    Row3();
    Row4();
    Row5();
    Row6();
    Row7();
    Row8();
    Row9();
    hide ListsPassing;
    var s := PRIMES_0;
    ListsConcat(0, s, PRIMES_1);
    s := s + PRIMES_1;
    ListsConcat(0, s, PRIMES_2);
    s := s + PRIMES_2;
    ListsConcat(0, s, PRIMES_3);
    s := s + PRIMES_3;
    ListsConcat(0, s, PRIMES_4);
    s := s + PRIMES_4;
    ListsConcat(0, s, PRIMES_5);
    s := s + PRIMES_5;
    ListsConcat(0, s, PRIMES_6);
    s := s + PRIMES_6;
    ListsConcat(0, s, PRIMES_7);
    s := s + PRIMES_7;
    ListsConcat(0, s, PRIMES_8);
    s := s + PRIMES_8;
    ListsConcat(0, s, PRIMES_9);
    s := s + PRIMES_9;
  }

  /**
   * The list consists of the first 80 primes: ascending, and up to its last number exactly the listed ones are prime.
   */
  lemma FirstEightyPrimes()
    ensures |PRIMES| == 80 && forall i, j :: 0 <= i < j < 80 ==> PRIMES[i] < PRIMES[j]
    ensures forall n: nat :: n <= PRIMES[79] ==> (Prime(n) <==> n in PRIMES)
  {
    WholeList();
    hide ListsPassing, PassesTrial, Prime, FirstPassing;
    forall i, j | 0 <= i < j < 80
      ensures PRIMES[i] < PRIMES[j]
    {
      ListAscends(0, PRIMES, i, j);
    }
    forall n: nat | n <= PRIMES[79]
      ensures Prime(n) <==> n in PRIMES
    {
      PassingListed(0, PRIMES, n);
      TrialDivision(n);
    }
  }
}
