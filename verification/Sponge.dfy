// The buffered sponge: a state, a buffer that is never full between calls, and its one-shot counterpart.
module Sponge {
  import opened Field
  import opened SpongeSpec

  datatype Option<T> = None | Some(value: T)

  /** The loop over a zip of state and values. */
  method AbsorbInto(mode: Mode, state: array<Fp>, values: seq<Fp>)
    requires |values| <= state.Length
    modifies state
    ensures state[..] == AbsorbBlock(mode, old(state[..]), values)
    ensures mode == Overwriting ==> state[..] == values + old(state[|values|..])
    ensures mode == Addition ==>
            (forall i :: 0 <= i < |values| ==> state[i] == (old(state[i]) + values[i]) % P) &&
            state[|values|..] == old(state[|values|..])
  {
    for i := 0 to |values|
      invariant forall j :: 0 <= j < i ==> state[j] == Absorb(mode, old(state[j]), values[j])
      invariant forall j :: i <= j < state.Length ==> state[j] == old(state[j])
    {
      state[i] := Absorb(mode, state[i], values[i]);
    }
  }

  method PadFrom(mode: Mode, state: array<Fp>, from: nat, to: nat)
    requires from <= to <= state.Length
    modifies state
    ensures forall i :: 0 <= i < state.Length ==>
            state[i] == if from <= i < to then Pad(mode, old(state[i])) else old(state[i])
  {
    for i := from to to
      invariant forall j :: 0 <= j < state.Length ==>
                state[j] == if from <= j < i then Pad(mode, old(state[j])) else old(state[j])
    {
      state[i] := Pad(mode, state[i]);
    }
  }

  method CopyInto(dst: array<Fp>, at: nat, values: seq<Fp>)
    requires at + |values| <= dst.Length
    modifies dst
    ensures dst[..] == old(dst[..at]) + values + old(dst[at + |values|..])
  {
    for i := 0 to |values|
      invariant dst[..] == old(dst[..at]) + values[..i] + old(dst[at + i..])
    {
      dst[at + i] := values[i];
    }
    assert values[..|values|] == values;
  }

  method RoundFunction(c: Config, state: array<Fp>)
    requires WellFormed(c) && state.Length == c.width
    modifies state
    ensures state[..] == c.round(old(state[..]))
  {
    CopyInto(state, 0, c.round(state[..]));
  }

  method OneRound(c: Config, state: array<Fp>, block: seq<Fp>)
    requires WellFormed(c) && state.Length == c.width && |block| == c.rate
    modifies state
    ensures state[..] == RoundWith(c, old(state[..]), block)
  {
    AbsorbInto(c.mode, state, block);
    RoundFunction(c, state);
  }

  /** The loop over the whole blocks (`chunks_exact`); the result is the remainder. */
  method AbsorbBlocks(c: Config, state: array<Fp>, data: seq<Fp>) returns (tail: seq<Fp>)
    requires WellFormed(c) && state.Length == c.width
    modifies state
    ensures state[..] == Absorbed(c, old(state[..]), data) && tail == Tail(c.rate, data)
  {
    tail := data;
    while |tail| >= c.rate
      invariant Absorbed(c, state[..], tail) == Absorbed(c, old(state[..]), data) &&
                Tail(c.rate, tail) == Tail(c.rate, data)
    {
      OneRound(c, state, tail[..c.rate]);
      tail := tail[c.rate..];
    }
  }

  /** `absorb_into_state_vararg`. */
  method AbsorbVararg(c: Config, state: array<Fp>, data: seq<Fp>)
    requires WellFormed(c) && state.Length == c.width
    modifies state
    ensures state[..] == OneShot(c, old(state[..]), data)
  {
    var remainder := AbsorbBlocks(c, state, data);
    if remainder != [] {
      var tmp := remainder + Zeros(c.rate - |remainder|);
      OneRound(c, state, tmp);
    }
  }

  /** `absorb_multiple_rounds`: also the states after each of the rounds. */
  method AbsorbMultipleRounds(c: Config, state: array<Fp>, data: seq<Fp>, rounds: nat) returns (states: seq<seq<Fp>>)
    requires WellFormed(c) && state.Length == c.width && |data| == rounds * c.rate
    modifies state
    ensures state[..] == Absorbed(c, old(state[..]), data)
    ensures |states| == rounds
    ensures forall i: nat :: i < rounds ==> AfterRound(c, old(state[..]), data, states[i], i)
  {
    states := [];
    var rest := data;
    ghost var start := state[..];
    assert data[..0] == [];
    for i: nat := 0 to rounds
      invariant |states| == i && |rest| == (rounds - i) * c.rate
      invariant exists used: seq<Fp> ::
                  data == used + rest && |used| == i * c.rate && state[..] == Absorbed(c, start, used)
      invariant forall j: nat :: j < i ==> AfterRound(c, start, data, states[j], j)
    {
      ghost var used: seq<Fp> :| data == used + rest && |used| == i * c.rate && state[..] == Absorbed(c, start, used);
      NextChunk(c, start, data, used, rest, rounds, i);
      OneRound(c, state, rest[..c.rate]);
      states := states + [state[..]];
      rest := rest[c.rate..];
    }
    ghost var used: seq<Fp> :| data == used + rest && |used| == rounds * c.rate &&
      state[..] == Absorbed(c, start, used);
    assert used == data;
  }

  /** `s` is the state after the first i + 1 blocks. */
  ghost predicate AfterRound(c: Config, start: seq<Fp>, data: seq<Fp>, s: seq<Fp>, i: nat)
    requires WellFormed(c) && |start| == c.width
  {
    (i + 1) * c.rate <= |data| && s == Absorbed(c, start, data[..(i + 1) * c.rate])
  }

  lemma NextChunk(c: Config, start: seq<Fp>, data: seq<Fp>, used: seq<Fp>, rest: seq<Fp>, rounds: nat, i: nat)
    requires WellFormed(c) && |start| == c.width && i < rounds && |data| == rounds * c.rate
    requires data == used + rest && |used| == i * c.rate
    ensures |rest| == (rounds - i) * c.rate >= c.rate && |rest| - c.rate == (rounds - (i + 1)) * c.rate
    ensures data == (used + rest[..c.rate]) + rest[c.rate..] && |used + rest[..c.rate]| == (i + 1) * c.rate
    ensures RoundWith(c, Absorbed(c, start, used), rest[..c.rate]) == Absorbed(c, start, used + rest[..c.rate])
    ensures AfterRound(c, start, data, RoundWith(c, Absorbed(c, start, used), rest[..c.rate]), i)
  {
    ChunkFits(c.rate, rounds, i);
    OneMoreBlock(c, start, used, rest[..c.rate], i);
    assert data[..(i + 1) * c.rate] == used + rest[..c.rate];
  }

  lemma ChunkFits(rate: nat, rounds: nat, i: nat)
    requires i < rounds
    ensures rounds * rate - i * rate == (rounds - i) * rate == rate + (rounds - (i + 1)) * rate
    ensures (i + 1) * rate == i * rate + rate && (rounds - (i + 1)) * rate >= 0
  {
  }

  lemma OneMoreBlock(c: Config, start: seq<Fp>, used: seq<Fp>, block: seq<Fp>, i: nat)
    requires WellFormed(c) && |start| == c.width && |used| == i * c.rate && |block| == c.rate
    ensures RoundWith(c, Absorbed(c, start, used), block) == Absorbed(c, start, used + block)
  {
    AbsorbInParts(c, start, used, block);
    NoTail(c.rate, used, i);
    assert [] + block == block && block[..c.rate] == block;
  }

  class BufferedSponge {
    const c: Config
    var buffer: array<Fp>
    var filled: nat
    var state: array<Fp>
    /** The state from which counting began, and everything absorbed since. */
    ghost var base: seq<Fp>
    ghost var log: seq<Fp>

    ghost predicate Valid()
      reads this, buffer, state
    {
      && WellFormed(c) && |base| == c.width && buffer != state
      && buffer.Length == c.rate && state.Length == c.width
      && filled < c.rate
      && state[..] == Absorbed(c, base, log)
      && buffer[..filled] == Tail(c.rate, log)
    }

    constructor (c: Config)
      requires WellFormed(c)
      ensures Valid() && fresh(buffer) && fresh(state) && this.c == c && base == c.initial && log == []
    {
      this.c := c;
      var buffer, state := new Fp[c.rate], new Fp[c.width];
      this.buffer, this.state, filled, base, log := buffer, state, 0, c.initial, [];
      new;
      CopyInto(buffer, 0, Zeros(c.rate));
      CopyInto(state, 0, c.initial);
    }

    method AbsorbSingle(value: Fp)
      requires Valid()
      modifies this`filled, this`log, buffer, state
      ensures Valid() && log == old(log) + [value]
    {
      AbsorbInParts(c, base, log, [value]);
      buffer[filled] := value;
      filled := filled + 1;
      assert buffer[..filled] == Tail(c.rate, log) + [value];
      log := log + [value];
      if filled == c.rate {
        assert buffer[..] == buffer[..filled];
        OneRound(c, state, buffer[..filled]);
        filled := 0;
      }
    }

    method AbsorbMany(values: seq<Fp>)
      requires Valid()
      modifies this`filled, this`log, buffer, state
      ensures Valid() && log == old(log) + values
    {
      AbsorbInParts(c, base, log, values);
      var pending := buffer[..filled];
      log := log + values;
      if |values| >= c.rate - filled {
        var toUse, rest := values[..c.rate - filled], values[c.rate - filled..];
        assert (pending + values)[..c.rate] == pending + toUse && (pending + values)[c.rate..] == rest;
        OneRound(c, state, pending + toUse);
        var tail := AbsorbBlocks(c, state, rest);
        filled := |tail|;
        CopyInto(buffer, 0, tail);
      } else {
        CopyInto(buffer, filled, values);
        filled := filled + |values|;
      }
    }

    /** Only allowed between blocks. */
    method RunRoundFunction() returns (ok: bool)
      requires Valid()
      modifies this`base, this`log, state
      ensures ok <==> |old(log)| % c.rate == 0
      ensures ok ==> Valid() && log == [] && base == c.round(Absorbed(c, old(base), old(log)))
      ensures !ok ==> Valid() && log == old(log) && base == old(base)
    {
      TailLength(c.rate, log);
      ok := filled == 0;
      if ok {
        RoundFunction(c, state);
        base, log := state[..], [];
      }
    }

    /** The first `n` elements of the state, between blocks only. */
    method TryGetCommitment(n: nat) returns (r: Option<seq<Fp>>)
      requires Valid() && n <= c.rate
      ensures r == if |log| % c.rate == 0 then Some(OneShot(c, base, log)[..n]) else None
    {
      TailLength(c.rate, log);
      if filled == 0 {
        r := Some(state[..n]);
      } else {
        r := None;
      }
    }

    /** The padded last round on a copy or a replaced state. */
    method FinalRound(last: array<Fp>)
      requires Valid() && last != buffer && last.Length == c.width && last[..] == Absorbed(c, base, log)
      modifies last
      ensures last[..] == OneShot(c, base, log)
    {
      if filled > 0 {
        PaddingIsZeros(c.mode, last[..], buffer[..filled], c.rate);
        AbsorbInto(c.mode, last, buffer[..filled]);
        PadFrom(c.mode, last, filled, c.rate);
        assert last[..] == AbsorbAndPad(c.mode, old(last[..]), buffer[..filled], c.rate);
        RoundFunction(c, last);
      }
    }

    /** The hash of everything absorbed: the one-shot function on the concatenation. */
    method Finalize(n: nat) returns (r: seq<Fp>)
      requires Valid() && n <= c.rate
      ensures r == OneShot(c, base, log)[..n]
    {
      var last := new Fp[c.width];
      CopyInto(last, 0, state[..]);
      FinalRound(last);
      r := last[..n];
    }

    /** The same value, and a sponge that has absorbed nothing. */
    method FinalizeReset(n: nat) returns (r: seq<Fp>)
      requires Valid() && n <= c.rate
      modifies this
      ensures r == OneShot(c, old(base), old(log))[..n]
      ensures Valid() && fresh(state) && buffer == old(buffer) && base == c.initial && log == [] && filled == 0
    {
      var last := new Fp[c.width];
      CopyInto(last, 0, state[..]);
      FinalRound(last);
      r := last[..n];
      var next := new Fp[c.width];
      CopyInto(next, 0, c.initial);
      state, filled, base, log := next, 0, c.initial, [];
    }
  }

  /** However the calls were cut, sponges with the same history are the same for every later call. */
  lemma ChunkingDoesNotMatter(a: BufferedSponge, b: BufferedSponge)
    requires a.Valid() && b.Valid() && a.c == b.c && a.base == b.base && a.log == b.log
    ensures a.filled == b.filled && a.state[..] == b.state[..] && a.buffer[..a.filled] == b.buffer[..b.filled]
    ensures a.filled == |a.log| % a.c.rate
  {
    TailLength(a.c.rate, a.log);
  }
}
