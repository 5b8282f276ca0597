// The Goldilocks field of the repository: residues modulo P = 2^64 - 2^32 + 1.
module Field {

  const P: int := 0xFFFF_FFFF_0000_0001

  type Fp = x: int | 0 <= x < P

  function Add(a: Fp, b: Fp): Fp { (a + b) % P }

  function Sub(a: Fp, b: Fp): Fp { (a - b) % P }

  function Mul(a: Fp, b: Fp): Fp { (a * b) % P }

  /** Repeated multiplication; the specification behind every power table of the code. */
  function Pow(x: Fp, e: nat): Fp
  {
    if e == 0 then 1 else Mul(x, Pow(x, e - 1))
  }

  // ---- Reduction modulo P commutes with the ring operations of the integers ----

  lemma ModUnique(a: int, q: int, r: int)
    requires a == q * P + r && 0 <= r < P
    ensures a % P == r
  {
  }

  lemma ModAddMultiple(a: int, q: int)
    ensures (a + q * P) % P == a % P
  {
    ModUnique(a + q * P, a / P + q, a % P);
  }

  lemma ModMulLeft(a: int, b: int)
    ensures (a % P * b) % P == (a * b) % P
  {
    var q := a / P;
    assert a % P * b + (q * b) * P == a * b by {
      assert a == q * P + a % P;
      assert (q * P) * b == (q * b) * P;
    }
    ModAddMultiple(a % P * b, q * b);
  }

  lemma ModAddSub(a: int, b: int)
    ensures (a % P + b % P) % P == (a + b) % P
    ensures (a % P - b % P) % P == (a - b) % P
  {
    var q, r := a / P, b / P;
    var x, y := a % P, b % P;
    assert a == x + q * P && b == y + r * P;
    ModAddMultiple(x + y, q + r);
    ModAddMultiple(x - y, q - r);
  }

  // ---- Ring laws ----

  lemma MulComm(a: Fp, b: Fp)
    ensures Mul(a, b) == Mul(b, a)
  {
  }

  lemma MulAssoc(a: Fp, b: Fp, c: Fp)
    ensures Mul(Mul(a, b), c) == Mul(a, Mul(b, c))
  {
    ModMulLeft(a * b, c);
    ModMulLeft(b * c, a);
    assert (b * c) % P * a == a * ((b * c) % P);
    assert (a * b) * c == b * c * a;
  }

  lemma MulMod(a: Fp, x: int)
    ensures Mul(a, x % P) == (a * x) % P
  {
    ModMulLeft(x, a);
    assert x % P * a == a * (x % P);
    assert x * a == a * x;
  }

  lemma MulAdd(a: Fp, b: Fp, c: Fp)
    ensures Mul(a, Add(b, c)) == Add(Mul(a, b), Mul(a, c))
  {
    MulMod(a, b + c);
    ModAddSub(a * b, a * c);
    assert a * (b + c) == a * b + a * c;
  }

  lemma MulSub(a: Fp, b: Fp, c: Fp)
    ensures Mul(a, Sub(b, c)) == Sub(Mul(a, b), Mul(a, c))
  {
    MulMod(a, b - c);
    ModAddSub(a * b, a * c);
    assert a * (b - c) == a * b - a * c;
  }

  lemma ZeroLaws(a: Fp)
    ensures Mul(a, 0) == 0 == Mul(0, a)
    ensures Add(a, 0) == a == Add(0, a)
  {
  }

  lemma MulOne(a: Fp)
    ensures Mul(1, a) == a == Mul(a, 1)
  {
  }

  lemma MulSwap(a: Fp, b: Fp, c: Fp)
    ensures Mul(a, Mul(b, c)) == Mul(b, Mul(a, c))
  {
    MulAssoc(a, b, c);
    MulComm(a, b);
    MulAssoc(b, a, c);
  }

  // ---- Powers ----

  lemma {:induction false} PowAdd(x: Fp, a: nat, b: nat)
    ensures Pow(x, a + b) == Mul(Pow(x, a), Pow(x, b))
  {
    if a == 0 {
      MulOne(Pow(x, b));
    } else {
      PowAdd(x, a - 1, b);
      MulAssoc(x, Pow(x, a - 1), Pow(x, b));
    }
  }

  lemma {:induction false} PowMul(x: Fp, a: nat, b: nat)
    ensures Pow(x, a * b) == Pow(Pow(x, a), b)
  {
    if b == 0 {
    } else {
      PowMul(x, a, b - 1);
      assert a * b == a + a * (b - 1);
      PowAdd(x, a, a * (b - 1));
    }
  }

  lemma {:induction false} PowProduct(x: Fp, y: Fp, e: nat)
    ensures Pow(Mul(x, y), e) == Mul(Pow(x, e), Pow(y, e))
  {
    if e > 0 {
      PowProduct(x, y, e - 1);
      var s, t := Pow(x, e - 1), Pow(y, e - 1);
      MulAssoc(x, y, Mul(s, t));
      MulSwap(y, s, t);
      MulAssoc(x, s, Mul(y, t));
    }
  }

  lemma {:induction false} PowOne(e: nat)
    ensures Pow(1, e) == 1
  {
    if e > 0 {
      PowOne(e - 1);
    }
  }
}
