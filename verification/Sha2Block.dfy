// The rounds over one block of the padded message.
module Sha2Block {
  import opened BitStrings
  import opened Circuit
  import opened CircuitBits
  import opened CircuitWords
  import opened Sha2
  import opened Sha2Rounds
  import opened Sha2Steps

  /** The round constants on wires. */
  ghost predicate CarriesTable(w: Assignment, k: seq<Word>, table: seq<nat>)
  {
    |k| == |table| && forall i :: 0 <= i < |k| ==> WordValue(w, k[i]) == table[i]
  }

  ghost predicate IsTableIn(models: iset<Assignment>, n: nat, k: seq<Word>, v: Variant)
  {
    && |k| == |v.k| && AllWordsIn(models, n, k, v.limbs)
    && forall w: Assignment :: w in models ==> CarriesTable(w, k, v.k)
  }

  ghost predicate IsTable(builder: CircuitBuilder, k: seq<Word>, v: Variant)
    reads builder
  {
    IsTableIn(builder.models, builder.wires, k, v)
  }

  /** After i rounds on a block whose bits are on the wires `bits`. */
  ghost predicate BlockProgress(w: Assignment, v: Variant, start: Variables, now: Variables, bits: seq<Wire>,
                                x: seq<Word>, i: nat)
    requires v.limbs > 0
  {
    Progress(v, Values(w, start), Values(w, now), Words(v.W(), BitValues(w, bits)), WindowValues(w, x), i)
  }

  ghost predicate AllProgress(models: iset<Assignment>, v: Variant, start: Variables, now: Variables, bits: seq<Wire>,
                              x: seq<Word>, i: nat)
    requires v.limbs > 0
  {
    forall w: Assignment :: w in models ==> BlockProgress(w, v, start, now, bits, x, i)
  }

  lemma BitValuesSlice(w: Assignment, bits: seq<Wire>, at: nat, n: nat)
    requires at + n <= |bits|
    ensures BitValues(w, bits[at..at + n]) == BitValues(w, bits)[at..at + n]
  {
  }

  lemma EarlyCarried(w: Assignment, v: Variant, start: Variables, now: Variables, next: Variables, bits: seq<Wire>,
                     x: seq<Word>, xi: Word, k: seq<Word>, i: nat, at: nat)
    requires v.Valid() && i < 16 && |bits| == 16 * v.W() && at == i * v.W() && at + v.W() <= |bits|
    requires BlockProgress(w, v, start, now, bits, x, i) && CarriesTable(w, k, v.k)
    requires WordValue(w, xi) == Nat(BitValues(w, bits[at..at + v.W()]))
    requires Values(w, next) == Round(v, Values(w, now), WordValue(w, k[i]), WordValue(w, xi))
    ensures BlockProgress(w, v, start, next, bits, x + [xi], i + 1)
  {
    hide Round, Rounds, Schedule, Nat, Words, WordValue;
    var block := Words(v.W(), BitValues(w, bits));
    WordOfBlock(v.W(), BitValues(w, bits), 16, i, at);
    BitValuesSlice(w, bits, at, v.W());
    ProgressEarly(v, Values(w, start), Values(w, now), block, WindowValues(w, x), i);
    assert WindowValues(w, x + [xi]) == WindowValues(w, x) + [block[i]];
  }

  lemma WordFits(i: nat, w: nat)
    requires i < 16
    ensures i * w + w == (i + 1) * w <= 16 * w
  {
    assert (16 - (i + 1)) * w >= 0;
  }

  /** What the loops over the rounds need and keep, in terms of the models and wires of the builder. */
  ghost predicate InBlockIn(models: iset<Assignment>, n: nat, v: Variant, k: seq<Word>, start: Variables,
                            now: Variables, bits: seq<Wire>, x: seq<Word>, i: nat)
    requires v.limbs > 0
  {
    && IsTableIn(models, n, k, v) && AreBitsIn(models, n, bits, 16 * v.W())
    && AreWordsIn(models, n, start, v.limbs) && AreWordsIn(models, n, now, v.limbs) && AllWordsIn(models, n, x, v.limbs)
    && |x| == (if i < 16 then i else 16) && AllProgress(models, v, start, now, bits, x, i)
  }

  ghost predicate InBlock(builder: CircuitBuilder, v: Variant, k: seq<Word>, start: Variables, now: Variables,
                          bits: seq<Wire>, x: seq<Word>, i: nat)
    reads builder
  {
    builder.Valid() && v.Valid() && InBlockIn(builder.models, builder.wires, v, k, start, now, bits, x, i)
  }

  /** What held of all models before a gadget still holds behind it. */
  lemma BlockKept(before: iset<Assignment>, after: iset<Assignment>, n: nat, n': nat, v: Variant, k: seq<Word>,
                  start: Variables, now: Variables, bits: seq<Wire>, x: seq<Word>, i: nat)
    requires v.limbs > 0 && after <= before && n <= n' && InBlockIn(before, n, v, k, start, now, bits, x, i)
    ensures InBlockIn(after, n', v, k, start, now, bits, x, i)
  {
    hide BlockProgress, CarriesTable, Limbs32, AllBits;
  }

  /** The word whose bits lie at `at` in the block. */
  method BlockWord(builder: CircuitBuilder, v: Variant, bits: seq<Wire>, at: nat) returns (xi: Word)
    requires builder.Valid() && AreBits(builder, bits, |bits|) && at + v.W() <= |bits|
    modifies builder
    ensures builder.Grown() && IsWord(builder, xi, v.limbs)
    ensures forall w: Assignment :: w in builder.models ==> WordValue(w, xi) == Nat(BitValues(w, bits[at..at + v.W()]))
  {
    ChunkIsBits(builder, bits, |bits|, at, v.W());
    xi := BitsToWord(builder, bits[at..at + v.W()], v.limbs, 32);
  }

  /** One of the first 16 rounds, on the next word of the block. */
  method EarlyStep(builder: CircuitBuilder, v: Variant, k: seq<Word>, now: Variables, bits: seq<Wire>, x: seq<Word>,
                   i: nat, at: nat, ghost start: Variables) returns (next: Variables, xi: Word)
    requires InBlock(builder, v, k, start, now, bits, x, i) && i < 16 && at == i * v.W()
    modifies builder
    ensures builder.Grown() && InBlock(builder, v, k, start, next, bits, x + [xi], i + 1)
  {
    hide Round, BlockProgress, WordValue, Nat, BitValues, AllBits, Limbs32, CarriesTable;
    WordFits(i, v.W());
    ghost var models, n := builder.models, builder.wires;
    xi, next := EarlyWords(builder, v, now, k[i], bits, at);
    BlockKept(models, builder.models, n, builder.wires, v, k, start, now, bits, x, i);
    EarlyProgress(builder, v, k, start, now, next, bits, x, xi, i, at);
  }

  /** The gadgets of an early round. */
  method EarlyWords(builder: CircuitBuilder, v: Variant, now: Variables, ki: Word, bits: seq<Wire>, at: nat)
    returns (xi: Word, next: Variables)
    requires builder.Valid() && v.Valid() && AreWords(builder, now, v.limbs) && IsWord(builder, ki, v.limbs)
    requires AreBits(builder, bits, |bits|) && at + v.W() <= |bits|
    modifies builder
    ensures builder.Grown() && IsWord(builder, xi, v.limbs) && AreWords(builder, next, v.limbs)
    ensures forall w: Assignment :: w in builder.models ==>
              && WordValue(w, xi) == Nat(BitValues(w, bits[at..at + v.W()]))
              && Values(w, next) == Round(v, Values(w, now), WordValue(w, ki), WordValue(w, xi))
  {
    hide Round, WordValue, Nat, BitValues, AllBits, Limbs32;
    xi := BlockWord(builder, v, bits, at);
    next := EarlyRound(builder, v, now, ki, xi);
  }

  lemma EarlyProgress(builder: CircuitBuilder, v: Variant, k: seq<Word>, start: Variables, now: Variables,
                      next: Variables, bits: seq<Wire>, x: seq<Word>, xi: Word, i: nat, at: nat)
    requires InBlock(builder, v, k, start, now, bits, x, i) && i < 16 && at == i * v.W() && at + v.W() <= |bits|
    requires IsWord(builder, xi, v.limbs) && AreWords(builder, next, v.limbs)
    requires forall w: Assignment :: w in builder.models ==>
               && WordValue(w, xi) == Nat(BitValues(w, bits[at..at + v.W()]))
               && Values(w, next) == Round(v, Values(w, now), WordValue(w, k[i]), WordValue(w, xi))
    ensures InBlock(builder, v, k, start, next, bits, x + [xi], i + 1)
  {
    hide Round, BlockProgress, WordValue, Nat, BitValues, AllBits, Limbs32, CarriesTable;
    forall w: Assignment | w in builder.models
      ensures BlockProgress(w, v, start, next, bits, x + [xi], i + 1)
    {
      EarlyCarried(w, v, start, now, next, bits, x, xi, k, i, at);
    }
  }

  lemma LateCarried(w: Assignment, v: Variant, start: Variables, now: Variables, next: Variables, bits: seq<Wire>,
                    x: seq<Word>, xi: Word, k: seq<Word>, i: nat)
    requires v.Valid() && 16 <= i < |v.k| && |x| == 16
    requires BlockProgress(w, v, start, now, bits, x, i) && CarriesTable(w, k, v.k)
    requires WordValue(w, xi) == NextWord(v, WordValue(w, x[(i + 14) % 16]), WordValue(w, x[(i + 9) % 16]),
                                          WordValue(w, x[(i + 1) % 16]), WordValue(w, x[i % 16]))
    requires Values(w, next) == Round(v, Values(w, now), WordValue(w, k[i]), WordValue(w, xi))
    ensures BlockProgress(w, v, start, next, bits, x[i % 16 := xi], i + 1)
  {
    hide Round, Rounds, Schedule, Nat, Words, WordValue, NextWord;
    ProgressLate(v, Values(w, start), Values(w, now), Words(v.W(), BitValues(w, bits)), WindowValues(w, x), i,
                 WordValue(w, xi));
    assert WindowValues(w, x[i % 16 := xi]) == WindowValues(w, x)[i % 16 := WordValue(w, xi)];
  }

  /** The gadgets of a later round. */
  method LateWords(builder: CircuitBuilder, v: Variant, now: Variables, ki: Word, x: seq<Word>, i: nat)
    returns (xi: Word, next: Variables)
    requires builder.Valid() && v.Valid() && AreWords(builder, now, v.limbs) && IsWord(builder, ki, v.limbs)
    requires |x| == 16 && AllWords(builder, x, v.limbs)
    modifies builder
    ensures builder.Grown() && IsWord(builder, xi, v.limbs) && AreWords(builder, next, v.limbs)
    ensures forall w: Assignment :: w in builder.models ==>
              && WordValue(w, xi) == NextWord(v, WordValue(w, x[(i + 14) % 16]), WordValue(w, x[(i + 9) % 16]),
                                              WordValue(w, x[(i + 1) % 16]), WordValue(w, x[i % 16]))
              && Values(w, next) == Round(v, Values(w, now), WordValue(w, ki), WordValue(w, xi))
  {
    hide Round, WordValue, NextWord, Limbs32;
    xi := NextScheduleWord(builder, v, x, i);
    next := LateRound(builder, v, now, ki, xi);
  }

  lemma LateProgress(builder: CircuitBuilder, v: Variant, k: seq<Word>, start: Variables, now: Variables,
                     next: Variables, bits: seq<Wire>, x: seq<Word>, xi: Word, i: nat)
    requires InBlock(builder, v, k, start, now, bits, x, i) && 16 <= i < |v.k|
    requires IsWord(builder, xi, v.limbs) && AreWords(builder, next, v.limbs)
    requires forall w: Assignment :: w in builder.models ==>
               && WordValue(w, xi) == NextWord(v, WordValue(w, x[(i + 14) % 16]), WordValue(w, x[(i + 9) % 16]),
                                               WordValue(w, x[(i + 1) % 16]), WordValue(w, x[i % 16]))
               && Values(w, next) == Round(v, Values(w, now), WordValue(w, k[i]), WordValue(w, xi))
    ensures InBlock(builder, v, k, start, next, bits, x[i % 16 := xi], i + 1)
  {
    hide Round, BlockProgress, WordValue, NextWord, AllBits, Limbs32, CarriesTable;
    forall w: Assignment | w in builder.models
      ensures BlockProgress(w, v, start, next, bits, x[i % 16 := xi], i + 1)
    {
      LateCarried(w, v, start, now, next, bits, x, xi, k, i);
    }
  }

  /** One of the later rounds, with the window updated in place. */
  method LateStep(builder: CircuitBuilder, v: Variant, k: seq<Word>, now: Variables, x: seq<Word>, i: nat,
                  ghost start: Variables, ghost bits: seq<Wire>) returns (next: Variables, xi: Word)
    requires InBlock(builder, v, k, start, now, bits, x, i) && 16 <= i < |v.k|
    modifies builder
    ensures builder.Grown() && InBlock(builder, v, k, start, next, bits, x[i % 16 := xi], i + 1)
  {
    hide Round, BlockProgress, WordValue, NextWord, AllBits, Limbs32, CarriesTable;
    ghost var models, n := builder.models, builder.wires;
    xi, next := LateWords(builder, v, now, k[i], x, i);
    BlockKept(models, builder.models, n, builder.wires, v, k, start, now, bits, x, i);
    LateProgress(builder, v, k, start, now, next, bits, x, xi, i);
  }

  lemma BlockBegins(w: Assignment, v: Variant, start: Variables, bits: seq<Wire>)
    requires v.Valid() && |bits| == 16 * v.W()
    ensures BlockProgress(w, v, start, start, bits, [], 0)
  {
    WordsCount(v.W(), BitValues(w, bits), 16);
  }

  /** The first 16 rounds. */
  method EarlyRounds(builder: CircuitBuilder, v: Variant, k: seq<Word>, start: Variables, bits: seq<Wire>)
    returns (now: Variables, x: seq<Word>)
    requires InBlock(builder, v, k, start, start, bits, [], 0)
    modifies builder
    ensures builder.Grown() && InBlock(builder, v, k, start, now, bits, x, 16)
  {
    hide InBlockIn;
    now, x := start, [];
    var at: nat := 0;
    for i: nat := 0 to 16
      invariant builder.Grown() && InBlock(builder, v, k, start, now, bits, x, i) && at == i * v.W()
    {
      var next, xi := EarlyStep(builder, v, k, now, bits, x, i, at, start);
      now, x := next, x + [xi];
      WordFits(i, v.W());
      at := at + v.W();
    }
  }

  lemma WindowSize(builder: CircuitBuilder, v: Variant, k: seq<Word>, start: Variables, now: Variables, bits: seq<Wire>,
                   x: seq<Word>, i: nat)
    requires InBlock(builder, v, k, start, now, bits, x, i) && i >= 16
    ensures |x| == 16
  {
  }

  /** The remaining rounds. */
  method LateRounds(builder: CircuitBuilder, v: Variant, k: seq<Word>, from: Variables, window: seq<Word>,
                    ghost start: Variables, ghost bits: seq<Wire>) returns (now: Variables, x: seq<Word>)
    requires InBlock(builder, v, k, start, from, bits, window, 16)
    modifies builder
    ensures builder.Grown() && InBlock(builder, v, k, start, now, bits, x, |v.k|)
  {
    hide InBlockIn;
    now, x := from, window;
    for i: nat := 16 to |v.k|
      invariant builder.Grown() && InBlock(builder, v, k, start, now, bits, x, i)
    {
      WindowSize(builder, v, k, start, now, bits, x, i);
      var next, xi := LateStep(builder, v, k, now, x, i, start, bits);
      now, x := next, x[i % 16 := xi];
    }
  }

  lemma BlockStarts(builder: CircuitBuilder, v: Variant, k: seq<Word>, start: Variables, bits: seq<Wire>)
    requires builder.Valid() && v.Valid() && IsTable(builder, k, v) && AreBits(builder, bits, 16 * v.W()) &&
             AreWords(builder, start, v.limbs)
    ensures InBlock(builder, v, k, start, start, bits, [], 0)
  {
    hide BlockProgress;
    forall w: Assignment | w in builder.models
      ensures BlockProgress(w, v, start, start, bits, [], 0)
    {
      BlockBegins(w, v, start, bits);
    }
  }

  /** All rounds of a block. */
  method BlockRounds(builder: CircuitBuilder, v: Variant, k: seq<Word>, start: Variables, bits: seq<Wire>)
    returns (now: Variables)
    requires builder.Valid() && v.Valid() && IsTable(builder, k, v) && AreBits(builder, bits, 16 * v.W())
    requires AreWords(builder, start, v.limbs)
    modifies builder
    ensures builder.Grown() && AreWords(builder, now, v.limbs) && AreWords(builder, start, v.limbs) &&
            IsTable(builder, k, v)
    ensures forall w: Assignment :: w in builder.models ==>
              |Words(v.W(), BitValues(w, bits))| == 16 &&
              Values(w, now) == Rounds(v, Values(w, start), Words(v.W(), BitValues(w, bits)), |v.k|)
  {
    hide Rounds, WordValue, Words;
    BlockStarts(builder, v, k, start, bits);
    var x: seq<Word>;
    now, x := EarlyRounds(builder, v, k, start, bits);
    now, x := LateRounds(builder, v, k, now, x, start, bits);
    forall w: Assignment | w in builder.models
      ensures |Words(v.W(), BitValues(w, bits))| == 16
      ensures Values(w, now) == Rounds(v, Values(w, start), Words(v.W(), BitValues(w, bits)), |v.k|)
    {
      assert BlockProgress(w, v, start, now, bits, x, |v.k|);
    }
  }

  /** Half of the additions to the hash value. */
  method AddFour(builder: CircuitBuilder, v: Variant, s: seq<Word>, t: seq<Word>)
    returns (a: Word, b: Word, c: Word, d: Word)
    requires builder.Valid() && v.Valid() && |s| == |t| == 4 && AllWords(builder, s, v.limbs) &&
             AllWords(builder, t, v.limbs)
    modifies builder
    ensures builder.Grown() && IsWord(builder, a, v.limbs) && IsWord(builder, b, v.limbs)
    ensures IsWord(builder, c, v.limbs) && IsWord(builder, d, v.limbs)
    ensures forall w: Assignment :: w in builder.models ==>
              && WordValue(w, a) == Plus(v, WordValue(w, s[0]), WordValue(w, t[0]))
              && WordValue(w, b) == Plus(v, WordValue(w, s[1]), WordValue(w, t[1]))
              && WordValue(w, c) == Plus(v, WordValue(w, s[2]), WordValue(w, t[2]))
              && WordValue(w, d) == Plus(v, WordValue(w, s[3]), WordValue(w, t[3]))
  {
    hide Plus, WordValue, Limbs32;
    a := AddWord(builder, v, s[0], t[0]);
    b := AddWord(builder, v, s[1], t[1]);
    c := AddWord(builder, v, s[2], t[2]);
    d := AddWord(builder, v, s[3], t[3]);
  }

  /** The hash value is increased by the working variables. */
  method AddVariables(builder: CircuitBuilder, v: Variant, s: Variables, t: Variables) returns (sum: Variables)
    requires builder.Valid() && v.Valid() && AreWords(builder, s, v.limbs) && AreWords(builder, t, v.limbs)
    modifies builder
    ensures builder.Grown() && AreWords(builder, sum, v.limbs)
    ensures forall w: Assignment :: w in builder.models ==> Values(w, sum) == AddStates(v, Values(w, s), Values(w, t))
  {
    hide Plus, WordValue, Limbs32;
    var a, b, c, d := AddFour(builder, v, [s.a, s.b, s.c, s.d], [t.a, t.b, t.c, t.d]);
    var e, f, g, h := AddFour(builder, v, [s.e, s.f, s.g, s.h], [t.e, t.f, t.g, t.h]);
    sum := Variables(a, b, c, d, e, f, g, h);
  }

  /** The circuit for one block computes the hash of the block. */
  method BlockCircuit(builder: CircuitBuilder, v: Variant, k: seq<Word>, start: Variables, bits: seq<Wire>)
    returns (sum: Variables)
    requires builder.Valid() && v.Valid() && IsTable(builder, k, v) && AreBits(builder, bits, 16 * v.W())
    requires AreWords(builder, start, v.limbs)
    modifies builder
    ensures builder.Grown() && AreWords(builder, sum, v.limbs) && IsTable(builder, k, v)
    ensures forall w: Assignment :: w in builder.models ==>
              |Words(v.W(), BitValues(w, bits))| == 16 &&
              Values(w, sum) == HashBlock(v, Values(w, start), Words(v.W(), BitValues(w, bits)))
  {
    hide Rounds, WordValue, Plus, Words, AddStates;
    var now := BlockRounds(builder, v, k, start, bits);
    sum := AddVariables(builder, v, start, now);
  }
}
