// Where the rescaling kernel does nothing: polynomials of fewer than 32 coefficients.
module SmallDegrees {
  import opened Field
  import opened Bits
  import opened Roots
  import opened Coset
  import opened InPlaceTree

  /** The coset generator squared j times. */
  function ShiftPower(j: nat): Fp
  {
    if j == 0 then GENERATOR else Mul(ShiftPower(j - 1), ShiftPower(j - 1))
  }

  lemma {:induction false} ShiftPowerIsPow(j: nat)
    ensures ShiftPower(j) == Pow(GENERATOR, Pow2(j))
  {
    if j == 0 {
      SquareOf(GENERATOR);
    } else {
      ShiftPowerIsPow(j - 1);
      PowAdd(GENERATOR, Pow2(j - 1), Pow2(j - 1));
    }
  }

  lemma ShiftSquared(j: nat, x: Fp, y: Fp)
    requires ShiftPower(j) == x && Mul(x, x) == y
    ensures ShiftPower(j + 1) == y
  {
  }

  /** The coset generator lies outside the subgroup of order 2^32. */
  lemma ShiftOutsideSubgroup()
    ensures ShiftPower(32) != 1
  {
    ShiftSquared(0, 0x7, 0x31);
    ShiftSquared(1, 0x31, 0x961);
    ShiftSquared(2, 0x961, 0x57f6c1);
    ShiftSquared(3, 0x57f6c1, 0x1e39a5057d81);
    ShiftSquared(4, 0x1e39a5057d81, 0x33cdc3006affab59);
    ShiftSquared(5, 0x33cdc3006affab59, 0x9c232dfb69ab851e);
    ShiftSquared(6, 0x9c232dfb69ab851e, 0xa8c0042254470173);
    ShiftSquared(7, 0xa8c0042254470173, 0x15535ad69462d090);
    ShiftSquared(8, 0x15535ad69462d090, 0xfef45a869aab8679);
    ShiftSquared(9, 0xfef45a869aab8679, 0x21beccb8b6d8f6fa);
    ShiftSquared(10, 0x21beccb8b6d8f6fa, 0x583cf0d902a86abc);
    ShiftSquared(11, 0x583cf0d902a86abc, 0x8bf128731ab1a0b5);
    ShiftSquared(12, 0x8bf128731ab1a0b5, 0xd17ad58ee893a7d2);
    ShiftSquared(13, 0xd17ad58ee893a7d2, 0xfaa379da87a7f914);
    ShiftSquared(14, 0xfaa379da87a7f914, 0x9220d622d5cf1603);
    ShiftSquared(15, 0x9220d622d5cf1603, 0x9ad50a054da1207f);
    ShiftSquared(16, 0x9ad50a054da1207f, 0xa452f750dd9b8a44);
    ShiftSquared(17, 0xa452f750dd9b8a44, 0x1415f3b2bce09454);
    ShiftSquared(18, 0x1415f3b2bce09454, 0xd3db3f11768ae838);
    ShiftSquared(19, 0xd3db3f11768ae838, 0xb44626e05edf0086);
    ShiftSquared(20, 0xb44626e05edf0086, 0xe4de14a4047cb0bf);
    ShiftSquared(21, 0xe4de14a4047cb0bf, 0xf4d85bd7e852ec36);
    ShiftSquared(22, 0xf4d85bd7e852ec36, 0x3d56e129723521fd);
    ShiftSquared(23, 0x3d56e129723521fd, 0x6402e9b28e42bfe3);
    ShiftSquared(24, 0x6402e9b28e42bfe3, 0xf7fd0e6632895a3a);
    ShiftSquared(25, 0xf7fd0e6632895a3a, 0x44447512bd52434a);
    ShiftSquared(26, 0x44447512bd52434a, 0xc878161102d0f705);
    ShiftSquared(27, 0xc878161102d0f705, 0xf52dac93873eb7ce);
    ShiftSquared(28, 0xf52dac93873eb7ce, 0x4bf5466963dd8aae);
    ShiftSquared(29, 0x4bf5466963dd8aae, 0x392ec7049f67a8b5);
    ShiftSquared(30, 0x392ec7049f67a8b5, 0xf1323b7acab09084);
    ShiftSquared(31, 0xf1323b7acab09084, 0xaa5b2509f86bb4d4);
  }

  /** Every power of a root is in the subgroup of order 2^32. */
  lemma RootInSubgroup(k: nat, e: nat, t: nat)
    requires k <= t == 32
    ensures Pow(Pow(Root(k), e), Pow2(t)) == 1
  {
    var r := Root(k);
    RootPow(k, k);
    RootOfOrderOne(k - k);
    Pow2Add(k, t - k);
    PowMul(r, Pow2(k), Pow2(t - k));
    PowOne(Pow2(t - k));
    PowMul(r, e, Pow2(t));
    assert e * Pow2(t) == Pow2(t) * e;
    PowMul(r, Pow2(t), e);
    PowOne(e);
  }

  /**
   * The leaves lie on the coset of the extension domain exactly when there are at least 32 coefficients:
   * for fewer, no leaf of the tree is a value on the coset that the documented extension uses.
   */
  lemma CosetExactlyFromThirtyTwo(k: nat, rateBits: nat, p: nat)
    requires k + rateBits <= 32
    ensures LeafPoint(k, rateBits, p) == ExtensionPoint(k, rateBits, p) <==> k >= 5
  {
    if k < 5 {
      var t: nat := 32;
      var e, e' := Rev(k, p % Pow2(k)), Rev(k + rateBits, p);
      var w := Pow(Root(k + rateBits), e');
      RootInSubgroup(k, e, t);
      RootInSubgroup(k + rateBits, e', t);
      PowProduct(GENERATOR, w, Pow2(t));
      ShiftPowerIsPow(t);
      MulOne(ShiftPower(t));
      ShiftOutsideSubgroup();
    }
  }
}
