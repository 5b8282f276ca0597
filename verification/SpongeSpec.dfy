// What an algebraic sponge computes from the list of everything it has absorbed.
module SpongeSpec {
  import opened Field
  import opened Bits

  datatype Mode = Addition | Overwriting

  /** Absorbed data goes to the first `rate` of `width` elements; nothing is assumed about the round function. */
  datatype Config = Config(mode: Mode, rate: nat, width: nat, round: seq<Fp> -> seq<Fp>, initial: seq<Fp>)

  ghost predicate WellFormed(c: Config)
  {
    && 0 < c.rate <= c.width == |c.initial|
    && forall s: seq<Fp> :: |s| == c.width ==> |c.round(s)| == c.width
  }

  function Absorb(mode: Mode, dst: Fp, value: Fp): Fp
  {
    match mode
    case Addition => Add(dst, value)
    case Overwriting => value
  }

  function Pad(mode: Mode, dst: Fp): Fp
  {
    match mode
    case Addition => dst
    case Overwriting => 0
  }

  /** The values absorbed into the first elements of the state. */
  function AbsorbBlock(mode: Mode, s: seq<Fp>, block: seq<Fp>): (r: seq<Fp>)
    requires |block| <= |s|
    ensures |r| == |s|
  {
    seq(|s|, i requires 0 <= i < |s| => if i < |block| then Absorb(mode, s[i], block[i]) else s[i])
  }

  function RoundWith(c: Config, s: seq<Fp>, block: seq<Fp>): (r: seq<Fp>)
    requires WellFormed(c) && |s| == c.width && |block| == c.rate
    ensures |r| == c.width
  {
    c.round(AbsorbBlock(c.mode, s, block))
  }

  /** The state after the whole blocks of `data`. */
  function Absorbed(c: Config, s: seq<Fp>, data: seq<Fp>): (r: seq<Fp>)
    requires WellFormed(c) && |s| == c.width
    ensures |r| == c.width
    decreases |data|
  {
    if |data| < c.rate then s else Absorbed(c, RoundWith(c, s, data[..c.rate]), data[c.rate..])
  }

  /** What remains of `data` after its whole blocks. */
  function Tail(rate: nat, data: seq<Fp>): (r: seq<Fp>)
    requires rate > 0
    ensures |r| < rate
    decreases |data|
  {
    if |data| < rate then data else Tail(rate, data[rate..])
  }

  function Zeros(n: nat): (r: seq<Fp>)
    ensures |r| == n
  {
    seq<Fp>(n, _ => 0)
  }

  /** `absorb_into_state_vararg`: an incomplete last block is filled up with zeros. */
  function OneShot(c: Config, s: seq<Fp>, data: seq<Fp>): (r: seq<Fp>)
    requires WellFormed(c) && |s| == c.width
    ensures |r| == c.width
  {
    var tail := Tail(c.rate, data);
    if tail == [] then Absorbed(c, s, data) else RoundWith(c, Absorbed(c, s, data), tail + Zeros(c.rate - |tail|))
  }

  // ---- What one block does ----

  /** In overwriting mode the block, filled up with zeros, takes the place of the first elements of the state. */
  lemma OverwrittenBlock(c: Config, s: seq<Fp>, data: seq<Fp>)
    requires WellFormed(c) && |s| == c.width && 0 < |data| <= c.rate && c.mode == Overwriting
    ensures OneShot(c, s, data) == c.round(data + seq<Fp>(c.rate - |data|, _ => 0) + s[c.rate..])
  {
    OneBlock(c, s, data);
    assert AbsorbBlock(c.mode, s, data + Zeros(c.rate - |data|))
        == data + seq<Fp>(c.rate - |data|, _ => 0) + s[c.rate..];
  }

  /** In addition mode the values are added to the first elements of the state, modulo P. */
  lemma AddedBlock(c: Config, s: seq<Fp>, data: seq<Fp>)
    requires WellFormed(c) && |s| == c.width && 0 < |data| <= c.rate && c.mode == Addition
    ensures OneShot(c, s, data)
         == c.round(seq<Fp>(|s|, i requires 0 <= i < |s| => if i < |data| then (s[i] + data[i]) % P else s[i]))
  {
    OneBlock(c, s, data);
    var sum := seq<Fp>(|s|, i requires 0 <= i < |s| => if i < |data| then (s[i] + data[i]) % P else s[i]);
    assert AbsorbBlock(c.mode, s, data + Zeros(c.rate - |data|)) == sum;
  }

  lemma OneBlock(c: Config, s: seq<Fp>, data: seq<Fp>)
    requires WellFormed(c) && |s| == c.width && 0 < |data| <= c.rate
    ensures OneShot(c, s, data) == RoundWith(c, s, data + Zeros(c.rate - |data|))
  {
    if |data| == c.rate {
      assert data[c.rate..] == [] && data[..c.rate] == data == data + Zeros(c.rate - |data|);
      assert Tail(c.rate, data) == Tail(c.rate, []) == [];
      assert Absorbed(c, s, data) == Absorbed(c, RoundWith(c, s, data), []) == RoundWith(c, s, data);
    }
  }

  /** More data is absorbed block by block. */
  lemma BlockByBlock(c: Config, s: seq<Fp>, block: seq<Fp>, rest: seq<Fp>)
    requires WellFormed(c) && |s| == c.width && |block| == c.rate
    ensures OneShot(c, s, []) == s
    ensures OneShot(c, s, block + rest) == OneShot(c, OneShot(c, s, block), rest)
  {
    OneBlock(c, s, block);
    assert block + Zeros(0) == block;
    assert (block + rest)[..c.rate] == block && (block + rest)[c.rate..] == rest;
  }

  // ---- Absorbing in parts ----

  /** After the first part only its state and its tail matter. */
  lemma {:induction false} AbsorbInParts(c: Config, s: seq<Fp>, a: seq<Fp>, b: seq<Fp>)
    requires WellFormed(c) && |s| == c.width
    ensures Absorbed(c, s, a + b) == Absorbed(c, Absorbed(c, s, a), Tail(c.rate, a) + b)
    ensures Tail(c.rate, a + b) == Tail(c.rate, Tail(c.rate, a) + b)
    decreases |a|
  {
    if |a| >= c.rate {
      assert (a + b)[..c.rate] == a[..c.rate] && (a + b)[c.rate..] == a[c.rate..] + b;
      AbsorbInParts(c, RoundWith(c, s, a[..c.rate]), a[c.rate..], b);
    }
  }

  /** The tail has the length of the data modulo the rate. */
  lemma {:induction false} TailLength(rate: nat, data: seq<Fp>)
    requires rate > 0
    ensures |Tail(rate, data)| == |data| % rate
    decreases |data|
  {
    if |data| >= rate {
      TailLength(rate, data[rate..]);
      OneBlockLess(|data|, rate);
    } else {
      DivModUnique(|data|, rate, 0, |data|);
    }
  }

  lemma OneBlockLess(n: nat, rate: nat)
    requires 0 < rate <= n
    ensures n % rate == (n - rate) % rate
  {
    var q := (n - rate) / rate;
    assert n - rate == q * rate + (n - rate) % rate;
    assert (q + 1) * rate == q * rate + rate;
    DivModUnique(n, rate, q + 1, (n - rate) % rate);
  }

  lemma {:induction false} NoTail(rate: nat, data: seq<Fp>, blocks: nat)
    requires rate > 0 && |data| == blocks * rate
    ensures Tail(rate, data) == []
    decreases blocks
  {
    if blocks > 0 {
      assert blocks * rate == rate + (blocks - 1) * rate;
      NoTail(rate, data[rate..], blocks - 1);
    }
  }

  /** The values absorbed, and the rest of the rate padded. */
  function AbsorbAndPad(mode: Mode, s: seq<Fp>, block: seq<Fp>, rate: nat): seq<Fp>
    requires |block| <= rate <= |s|
  {
    seq(|s|, i requires 0 <= i < |s| =>
      if i < |block| then Absorb(mode, s[i], block[i]) else if i < rate then Pad(mode, s[i]) else s[i])
  }

  /** Filling the last block with zeros is what the two ways of padding amount to. */
  lemma PaddingIsZeros(mode: Mode, s: seq<Fp>, block: seq<Fp>, rate: nat)
    requires |block| <= rate <= |s|
    ensures AbsorbBlock(mode, s, block + Zeros(rate - |block|)) == AbsorbAndPad(mode, s, block, rate)
  {
    forall i | 0 <= i < |s|
      ensures AbsorbBlock(mode, s, block + Zeros(rate - |block|))[i] == AbsorbAndPad(mode, s, block, rate)[i]
    {
      ZeroLaws(s[i]);
    }
  }
}
