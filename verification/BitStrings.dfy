// Numbers and their bit strings, most significant bit first.
module BitStrings {
  import opened Bits

  function Digit(b: bool): (d: nat)
    ensures d < 2
  {
    if b then 1 else 0
  }

  /** The number written as `b`. */
  function Nat(b: seq<bool>): nat
  {
    if b == [] then 0 else 2 * Nat(b[..|b| - 1]) + Digit(b[|b| - 1])
  }

  /** The lowest n bits of x. */
  function ToBits(n: nat, x: nat): (r: seq<bool>)
    ensures |r| == n
  {
    if n == 0 then [] else ToBits(n - 1, x / 2) + [x % 2 == 1]
  }

  lemma {:induction false} NatBound(b: seq<bool>)
    ensures Nat(b) < Pow2(|b|)
  {
    if b != [] {
      NatBound(b[..|b| - 1]);
    }
  }

  lemma NatSnoc(b: seq<bool>, d: bool)
    ensures Nat(b + [d]) == 2 * Nat(b) + Digit(d)
  {
    assert (b + [d])[..|b|] == b;
  }

  lemma ToBitsSnoc(n: nat, x: nat, d: bool)
    ensures ToBits(n + 1, 2 * x + Digit(d)) == ToBits(n, x) + [d]
  {
  }

  lemma {:induction false} BitsOfNat(b: seq<bool>)
    ensures ToBits(|b|, Nat(b)) == b
  {
    if b != [] {
      hide ToBits, Nat, Digit;
      var rest, d := b[..|b| - 1], b[|b| - 1];
      BitsOfNat(rest);
      assert b == rest + [d];
      NatSnoc(rest, d);
      ToBitsSnoc(|rest|, Nat(rest), d);
    }
  }

  lemma {:induction false} NatOfBits(n: nat, x: nat)
    requires x < Pow2(n)
    ensures Nat(ToBits(n, x)) == x
  {
    if n > 0 {
      NatOfBits(n - 1, x / 2);
      NatSnoc(ToBits(n - 1, x / 2), x % 2 == 1);
    }
  }

  lemma DoubleProduct(a: nat, p: nat, n: nat, d: nat)
    ensures 2 * (a * p + n) + d == a * (2 * p) + (2 * n + d)
  {
  }

  lemma {:induction false} NatConcat(a: seq<bool>, b: seq<bool>)
    ensures Nat(a + b) == Nat(a) * Pow2(|b|) + Nat(b)
  {
    if b == [] {
      assert a + b == a && Pow2(|b|) == 1;
    } else {
      var rest, d := b[..|b| - 1], b[|b| - 1];
      assert a + b == (a + rest) + [d] && b == rest + [d];
      NatSnoc(a + rest, d);
      NatConcat(a, rest);
      DoubleProduct(Nat(a), Pow2(|rest|), Nat(rest), Digit(d));
    }
  }

  /** The bits of a number put together from a high and a low part. */
  lemma BitsConcat(m: nat, n: nat, high: nat, low: nat, x: nat)
    requires high < Pow2(m) && low < Pow2(n) && x == high * Pow2(n) + low
    ensures ToBits(m + n, x) == ToBits(m, high) + ToBits(n, low)
  {
    hide ToBits, Nat, Pow2;
    var both := ToBits(m, high) + ToBits(n, low);
    NatConcat(ToBits(m, high), ToBits(n, low));
    NatOfBits(m, high);
    NatOfBits(n, low);
    BitsOfNat(both);
  }

  function Reversed<T>(s: seq<T>): (r: seq<T>)
    ensures |r| == |s|
    ensures forall i :: 0 <= i < |s| ==> r[i] == s[|s| - 1 - i]
  {
    if s == [] then [] else Reversed(s[1..]) + [s[0]]
  }
}
