// Roots of unity and the twiddle factors of the transform.
module Roots {
  import opened Field
  import opened Bits

  // Generator of the subgroup of order 2^32, the coset shift, and the inverses the code obtains from them.
  const OMEGA: Fp := 0x185629dcda58878c
  const OMEGA_INV: Fp := 0x76b6b635b6fc8719
  const GENERATOR: Fp := 7
  const GENERATOR_INV: Fp := 0x249249246db6db6e
  const TWO_INV: Fp := 0x7fffffff80000001
  const MINUS_ONE: Fp := P - 1

  lemma Inverses()
    ensures Mul(OMEGA, OMEGA_INV) == 1
    ensures Mul(GENERATOR, GENERATOR_INV) == 1
    ensures Mul(2, TWO_INV) == 1
  {
  }

  /** Primitive root of unity of order 2^k. */
  function Root(k: nat): Fp
    requires k <= 32
    decreases 32 - k
  {
    if k == 32 then OMEGA else Mul(Root(k + 1), Root(k + 1))
  }

  lemma SquareOf(x: Fp)
    ensures Pow(x, 2) == Mul(x, x)
    ensures Pow(x, 1) == x
  {
    assert Pow(x, 0) == 1;
    assert Pow(x, 1) == Mul(x, Pow(x, 0));
    assert Pow(x, 2) == Mul(x, Pow(x, 1));
  }

  lemma {:induction false} RootPow(k: nat, j: nat)
    requires j <= k <= 32
    ensures Pow(Root(k), Pow2(j)) == Root(k - j)
  {
    if j == 0 {
      SquareOf(Root(k));
    } else {
      RootPow(k, j - 1);
      PowAdd(Root(k), Pow2(j - 1), Pow2(j - 1));
    }
  }

  lemma RootDown(k: nat, x: Fp, y: Fp)
    requires k < 32 && Root(k + 1) == x && Mul(x, x) == y
    ensures Root(k) == y
  {
  }

  /** The generator really has order 2^32: its 2^31-th power is minus one. */
  lemma RootOfOrderTwo()
    ensures Root(1) == MINUS_ONE
  {
    RootDown(31, OMEGA, 0x400a7f755588e659);
    RootDown(30, 0x400a7f755588e659, 0x7e9bd009b86a0845);
    RootDown(29, 0x7e9bd009b86a0845, 0xdfa8c93ba46d2666);
    RootDown(28, 0xdfa8c93ba46d2666, 0x59049500004a4485);
    RootDown(27, 0x59049500004a4485, 0x10d78dd8915a171d);
    RootDown(26, 0x10d78dd8915a171d, 0xed41d05b78d6e286);
    RootDown(25, 0xed41d05b78d6e286, 0x4bbaf5976ecfefd8);
    RootDown(24, 0x4bbaf5976ecfefd8, 0x86cdcc31c307e171);
    RootDown(23, 0x86cdcc31c307e171, 0xea9d5a1336fbc98b);
    RootDown(22, 0xea9d5a1336fbc98b, 0x4b2a18ade67246b5);
    RootDown(21, 0x4b2a18ade67246b5, 0xf502aef532322654);
    RootDown(20, 0xf502aef532322654, 0x30ba2ecd5e93e76d);
    RootDown(19, 0x30ba2ecd5e93e76d, 0xfbd41c6b8caa3302);
    RootDown(18, 0xfbd41c6b8caa3302, 0x81281a7b05f9beac);
    RootDown(17, 0x81281a7b05f9beac, 0xabd0a6e8aa3d8a0e);
    RootDown(16, 0xabd0a6e8aa3d8a0e, 0x54df9630bf79450e);
    RootDown(15, 0x54df9630bf79450e, 0xf6b2cffe2306baac);
    RootDown(14, 0xf6b2cffe2306baac, 0xe0ee099310bba1e2);
    RootDown(13, 0xe0ee099310bba1e2, 0x1544ef2335d17997);
    RootDown(12, 0x1544ef2335d17997, 0xf2c35199959dfcb6);
    RootDown(11, 0xf2c35199959dfcb6, 0x653b4801da1c8cf);
    RootDown(10, 0x653b4801da1c8cf, 0x9d8f2ad78bfed972);
    RootDown(9, 0x9d8f2ad78bfed972, 0x1905d02a5c411f4e);
    RootDown(8, 0x1905d02a5c411f4e, 0xbf79143ce60ca966);
    RootDown(7, 0xbf79143ce60ca966, 0xf80007ff08000001);
    RootDown(6, 0xf80007ff08000001, 0x8000000000);
    RootDown(5, 0x8000000000, 0x3fffffffc000);
    RootDown(4, 0x3fffffffc000, 0xefffffff00000001);
    RootDown(3, 0xefffffff00000001, 0xfffffffeff000001);
    RootDown(2, 0xfffffffeff000001, 0x1000000000000);
    RootDown(1, 0x1000000000000, MINUS_ONE);
  }

  /** x is the power of the coset shift with exponent 2^k - 1. */
  ghost predicate ShiftPower(k: nat, x: Fp)
  {
    Pow(GENERATOR, Pow2(k) - 1) == x
  }

  lemma FirstPower(k: nat)
    requires k == 1
    ensures ShiftPower(k, 7)
  {
    SquareOf(GENERATOR);
    assert Pow2(k) == 2 * Pow2(k - 1) == 2;
  }

  lemma ShiftedSquare(x: Fp, q: nat, y: Fp)
    requires 7 * x * x == q * 0xFFFF_FFFF_0000_0001 + y
    ensures Mul(GENERATOR, Mul(x, x)) == y
  {
    MulMod(GENERATOR, x * x);
    assert 7 * (x * x) == 7 * x * x;
    ModUnique(7 * (x * x), q, y);
  }

  /** Squared and multiplied by the shift, with the quotient by P. */
  lemma PowerUp(k: nat, x: Fp, q: nat, y: Fp)
    requires ShiftPower(k, x) && 7 * x * x == q * 0xFFFF_FFFF_0000_0001 + y
    ensures ShiftPower(k + 1, y)
  {
    hide Mul;
    ShiftedSquare(x, q, y);
    PowAdd(GENERATOR, Pow2(k) - 1, Pow2(k) - 1);
  }

  /** The subgroup generator is the power (P - 1) / 2^32 of the coset shift. */
  lemma SubgroupGenerator(k: nat)
    requires k == 32
    ensures P - 1 == Pow2(k) * (Pow2(k) - 1) && Pow(GENERATOR, Pow2(k) - 1) == OMEGA
  {
    hide ShiftPower;
    ShiftPowers();
    PowerOf32(k);
    LastPower(k);
  }

  lemma LastPower(k: nat)
    requires ShiftPower(k, OMEGA)
    ensures Pow(GENERATOR, Pow2(k) - 1) == OMEGA
  {
  }

  lemma ShiftPowers()
    ensures ShiftPower(32, OMEGA)
  {
    hide ShiftPower;
    FirstPower(1);
    PowerUp(1, 0x7, 0x0, 0x157);
    PowerUp(2, 0x157, 0x0, 0xc90f7);
    PowerUp(3, 0xc90f7, 0x0, 0x45160b7a437);
    PowerUp(4, 0x45160b7a437, 0x82823c, 0x99afae240f49187b);
    PowerUp(5, 0x99afae240f49187b, 0x285d83f01100b6861, 0xa8974fb5a161a54e);
    PowerUp(6, 0xa8974fb5a161a54e, 0x309309e61ab7b9eb9, 0x61400096e777dba3);
    PowerUp(7, 0x61400096e777dba3, 0x1029af32392a5546a, 0x70c2c3d51532b015);
    PowerUp(8, 0x70c2c3d51532b015, 0x15bacfcb83ed48690, 0x246c0ceea861a57f);
    PowerUp(9, 0x246c0ceea861a57f, 0x2445f8b265eb6b2c, 0x7288f8ac3eb147db);
    PowerUp(10, 0x7288f8ac3eb147db, 0x166b3ef535982af54, 0x312d46fa4985c61b);
    PowerUp(11, 0x312d46fa4985c61b, 0x42208c4128d6c6b0, 0xa64705c6baaba93f);
    PowerUp(12, 0xa64705c6baaba93f, 0x2f4014a60792a0444, 0x8ba3d55d2139aa43);
    PowerUp(13, 0x8ba3d55d2139aa43, 0x2152f41d9d0b6844e, 0x91851167eeceda71);
    PowerUp(14, 0x91851167eeceda71, 0x2430814360cf0184b, 0x397267bbb0d470dc);
    PowerUp(15, 0x397267bbb0d470dc, 0x5a3d053f47d1a6cb, 0xa86793b70b1704a5);
    PowerUp(16, 0xa86793b70b1704a5, 0x30778c27e1f0ac81c, 0x3c0bda2ffb163853);
    PowerUp(17, 0x3c0bda2ffb163853, 0x6296e7c5290d2053, 0x2de90873f8dcc0c);
    PowerUp(18, 0x2de90873f8dcc0c, 0x39a247b057c2c3, 0x8bfabfdd7ea6212d);
    PowerUp(19, 0x8bfabfdd7ea6212d, 0x217c7cdbae357ff95, 0x19c0e0fb7b446dca);
    PowerUp(20, 0x19c0e0fb7b446dca, 0x1222acd79d47f0c5, 0x69d6953bb77f86f7);
    PowerUp(21, 0x69d6953bb77f86f7, 0x1324c17fef9cfdc2f, 0x6c1ee88c45c2b408);
    PowerUp(22, 0x6c1ee88c45c2b408, 0x13fa6a79d0884e177, 0x51e7d705a299e049);
    PowerUp(23, 0x51e7d705a299e049, 0xb76fb833f31eb64d, 0x7c006a86cb2e1b6a);
    PowerUp(24, 0x7c006a86cb2e1b6a, 0x1a472d264ec8eceea, 0xb5b66fc4e2a5e852);
    PowerUp(25, 0xb5b66fc4e2a5e852, 0x386e064702b8cc51a, 0x9c09c794643052c2);
    PowerUp(26, 0x9c09c794643052c2, 0x299c3714a0cb14789, 0x1ca370dddbd4b593);
    PowerUp(27, 0x1ca370dddbd4b593, 0x166d1f4245088fc1, 0xb54faaefeebfd11e);
    PowerUp(28, 0xb54faaefeebfd11e, 0x382e4439317b131f0, 0xe6479c575768caac);
    PowerUp(29, 0xe6479c575768caac, 0x5aa0146b8e8eeb31f, 0x514fd349847c85d1);
    PowerUp(30, 0x514fd349847c85d1, 0xb4c9482cf5f72978, 0xd95051a31cf4a6ef);
    PowerUp(31, 0xd95051a31cf4a6ef, 0x50b50d9389ccb3e5b, 0x185629dcda58878c);
  }

  lemma SquareRootOfOne(k: nat, one: nat)
    requires k + 1 == one <= 32 && Root(one) == MINUS_ONE
    ensures Root(k) == 1
  {
    hide Root;
    RootDown(k, MINUS_ONE, 1);
  }

  lemma RootOfOrderOne(k: nat)
    requires k == 0
    ensures Root(k) == 1
  {
    var one := k + 1;
    RootOfOrderTwo();
    SquareRootOfOne(k, one);
  }

  /** The value of X^m that characterises region `e` after `s` stages of a transform of size m * 2^s. */
  function Zeta(s: nat, e: nat): Fp
    requires s <= 32
  {
    Pow(Root(s), Rev(s, e))
  }

  lemma ZetaEven(s: nat, e: nat)
    requires s < 32
    ensures Mul(Zeta(s + 1, 2 * e), Zeta(s + 1, 2 * e)) == Zeta(s, e)
  {
    RevEvenOdd(s, e);
    PowProduct(Root(s + 1), Root(s + 1), Rev(s, e));
  }

  lemma ZetaOdd(s: nat, e: nat)
    requires s < 32
    ensures Zeta(s + 1, 2 * e + 1) == Mul(Zeta(s + 1, 2 * e), MINUS_ONE)
  {
    RevEvenOdd(s, e);
    PowAdd(Root(s + 1), Rev(s, e), Pow2(s));
    RootPow(s + 1, s);
    RootOfOrderTwo();
  }

  /** The entry of the bit-reversed twiddle table at `i`; `order` is the logarithm of the table's root order. */
  function Twiddle(order: nat, i: nat): Fp
    requires 1 <= order <= 32
  {
    Pow(Root(order), Rev(order - 1, i))
  }

  function InverseRoot(k: nat): Fp
    requires k <= 32
    decreases 32 - k
  {
    if k == 32 then OMEGA_INV else Mul(InverseRoot(k + 1), InverseRoot(k + 1))
  }

  function InverseTwiddle(order: nat, i: nat): Fp
    requires 1 <= order <= 32
  {
    Pow(InverseRoot(order), Rev(order - 1, i))
  }

  /** One table entry serves region `i` at every stage that has more than `i` regions. */
  lemma TwiddleIsZeta(order: nat, s: nat, i: nat)
    requires s < order <= 32 && i < Pow2(s)
    ensures Twiddle(order, i) == Zeta(s + 1, 2 * i)
  {
    var rest := order - 1 - s;
    RevPad(s, rest, i);
    PowMul(Root(order), Pow2(rest), Rev(s, i));
    RootPow(order, rest);
    RevEvenOdd(s, i);
  }

  lemma {:induction false} RootInverse(k: nat)
    requires k <= 32
    ensures Mul(Root(k), InverseRoot(k)) == 1
    decreases 32 - k
  {
    if k == 32 {
      Inverses();
    } else {
      RootInverse(k + 1);
      var x, y := Root(k + 1), InverseRoot(k + 1);
      MulAssoc(x, x, Mul(y, y));
      MulSwap(x, y, y);
      MulOne(y);
    }
  }

  lemma TwiddleInverse(order: nat, i: nat)
    requires 1 <= order <= 32
    ensures Mul(Twiddle(order, i), InverseTwiddle(order, i)) == 1
  {
    RootInverse(order);
    PowProduct(Root(order), InverseRoot(order), Rev(order - 1, i));
    PowOne(Rev(order - 1, i));
  }
}
