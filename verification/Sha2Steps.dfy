// One round of the circuit, before and after the sixteenth.
module Sha2Steps {
  import opened Circuit
  import opened CircuitWords
  import opened Sha2
  import opened Sha2Gadgets
  import opened Sha2Rounds

  /** The wires of the working variables. */
  datatype Variables = Variables(a: Word, b: Word, c: Word, d: Word, e: Word, f: Word, g: Word, h: Word)

  function Values(w: Assignment, s: Variables): Working
  {
    Working(WordValue(w, s.a), WordValue(w, s.b), WordValue(w, s.c), WordValue(w, s.d),
            WordValue(w, s.e), WordValue(w, s.f), WordValue(w, s.g), WordValue(w, s.h))
  }

  ghost predicate AreWordsIn(models: iset<Assignment>, n: nat, s: Variables, limbs: nat)
  {
    && IsWordIn(models, n, s.a, limbs) && IsWordIn(models, n, s.b, limbs)
    && IsWordIn(models, n, s.c, limbs) && IsWordIn(models, n, s.d, limbs)
    && IsWordIn(models, n, s.e, limbs) && IsWordIn(models, n, s.f, limbs)
    && IsWordIn(models, n, s.g, limbs) && IsWordIn(models, n, s.h, limbs)
  }

  ghost predicate AreWords(builder: CircuitBuilder, s: Variables, limbs: nat)
    reads builder
  {
    AreWordsIn(builder.models, builder.wires, s, limbs)
  }

  /** `add_u32`, `add_biguint_2limbs` */
  method AddWord(builder: CircuitBuilder, v: Variant, x: Word, y: Word) returns (sum: Word)
    requires builder.Valid() && (v.limbs == 1 || v.limbs == 2) && IsWord(builder, x, v.limbs) &&
             IsWord(builder, y, v.limbs)
    modifies builder
    ensures builder.Grown() && IsWord(builder, sum, v.limbs)
    ensures forall w: Assignment :: w in builder.models ==>
            WordValue(w, sum) == Plus(v, WordValue(w, x), WordValue(w, y))
  {
    sum := AddWords(builder, x, y, v.limbs);
  }

  function T1(v: Variant, s: Working, k: nat, x: nat): nat
  {
    Plus(v, Plus(v, Plus(v, Plus(v, s.h, SigmaWord(v, v.bigSigma1, s.e)), Ch(v, s.e, s.f, s.g)), k), x)
  }

  function T2(v: Variant, s: Working): nat
  {
    Plus(v, SigmaWord(v, v.bigSigma0, s.a), Maj(v, s.a, s.b, s.c))
  }

  lemma RoundByParts(v: Variant, s: Working, k: nat, x: nat)
    ensures Round(v, s, k, x)
         == Working(Plus(v, T1(v, s, k, x), T2(v, s)), s.a, s.b, s.c, Plus(v, s.d, T1(v, s, k, x)), s.e, s.f, s.g)
  {
  }

  /** Sizes and words at the start of a round. */
  ghost predicate Ready(builder: CircuitBuilder, v: Variant, s: Variables, k: Word, x: Word)
    reads builder
  {
    && builder.Valid() && v.Valid() && AreWords(builder, s, v.limbs)
    && IsWord(builder, k, v.limbs) && IsWord(builder, x, v.limbs)
  }

  /** t1 in the order of the first 16 rounds. */
  method EarlyT1(builder: CircuitBuilder, v: Variant, s: Variables, k: Word, x: Word) returns (t1: Word)
    requires Ready(builder, v, s, k, x)
    modifies builder
    ensures builder.Grown() && IsWord(builder, t1, v.limbs)
    ensures forall w: Assignment :: w in builder.models ==>
              WordValue(w, t1) == T1(v, Values(w, s), WordValue(w, k), WordValue(w, x))
  {
    var bigSigma1E := SigmaGadget(builder, v, v.bigSigma1, s.e);
    t1 := AddWord(builder, v, s.h, bigSigma1E);
    var chEFG := ChoiceGadget(builder, v, ChooseCh, s.e, s.f, s.g);
    t1 := AddWord(builder, v, t1, chEFG);
    t1 := AddWord(builder, v, t1, k);
    t1 := AddWord(builder, v, t1, x);
  }

  /** t2 in the order of the first 16 rounds. */
  method EarlyT2(builder: CircuitBuilder, v: Variant, s: Variables) returns (t2: Word)
    requires builder.Valid() && v.Valid() && AreWords(builder, s, v.limbs)
    modifies builder
    ensures builder.Grown() && IsWord(builder, t2, v.limbs)
    ensures forall w: Assignment :: w in builder.models ==> WordValue(w, t2) == T2(v, Values(w, s))
  {
    t2 := SigmaGadget(builder, v, v.bigSigma0, s.a);
    var majABC := ChoiceGadget(builder, v, ChooseMaj, s.a, s.b, s.c);
    t2 := AddWord(builder, v, t2, majABC);
  }

  /** The four logical functions of a later round, in its order. */
  method LateFunctions(builder: CircuitBuilder, v: Variant, s: Variables)
    returns (bigSigma0A: Word, bigSigma1E: Word, chEFG: Word, majABC: Word)
    requires builder.Valid() && v.Valid() && AreWords(builder, s, v.limbs)
    modifies builder
    ensures builder.Grown() && IsWord(builder, bigSigma0A, v.limbs) && IsWord(builder, bigSigma1E, v.limbs)
    ensures IsWord(builder, chEFG, v.limbs) && IsWord(builder, majABC, v.limbs)
    ensures forall w: Assignment :: w in builder.models ==>
              && WordValue(w, bigSigma0A) == SigmaWord(v, v.bigSigma0, WordValue(w, s.a))
              && WordValue(w, bigSigma1E) == SigmaWord(v, v.bigSigma1, WordValue(w, s.e))
              && WordValue(w, chEFG) == Ch(v, WordValue(w, s.e), WordValue(w, s.f), WordValue(w, s.g))
              && WordValue(w, majABC) == Maj(v, WordValue(w, s.a), WordValue(w, s.b), WordValue(w, s.c))
  {
    hide WordValue, Limbs32, SigmaWord, Ch, Maj;
    bigSigma0A := SigmaGadget(builder, v, v.bigSigma0, s.a);
    bigSigma1E := SigmaGadget(builder, v, v.bigSigma1, s.e);
    chEFG := ChoiceGadget(builder, v, ChooseCh, s.e, s.f, s.g);
    majABC := ChoiceGadget(builder, v, ChooseMaj, s.a, s.b, s.c);
  }

  /** t1 of a later round: the word of the schedule comes first. */
  method LateSum(builder: CircuitBuilder, v: Variant, h: Word, bigSigma1E: Word, chEFG: Word, k: Word, x: Word)
    returns (t1: Word)
    requires builder.Valid() && v.Valid() && IsWord(builder, h, v.limbs) && IsWord(builder, bigSigma1E, v.limbs)
    requires IsWord(builder, chEFG, v.limbs) && IsWord(builder, k, v.limbs) && IsWord(builder, x, v.limbs)
    modifies builder
    ensures builder.Grown() && IsWord(builder, t1, v.limbs)
    ensures forall w: Assignment :: w in builder.models ==>
              WordValue(w, t1)
                == Plus(v, Plus(v, Plus(v, Plus(v, WordValue(w, h), WordValue(w, bigSigma1E)), WordValue(w, chEFG)),
                                WordValue(w, k)), WordValue(w, x))
  {
    hide WordValue, Limbs32, Plus;
    var hAddSigma1 := AddWord(builder, v, h, bigSigma1E);
    var hAddSigma1AddCh := AddWord(builder, v, hAddSigma1, chEFG);
    var hAddSigma1AddChAddK := AddWord(builder, v, hAddSigma1AddCh, k);
    t1 := AddWord(builder, v, x, hAddSigma1AddChAddK);
    forall w: Assignment | w in builder.models
      ensures WordValue(w, t1) == Plus(v, WordValue(w, hAddSigma1AddChAddK), WordValue(w, x))
    {
      PlusComm(v, WordValue(w, x), WordValue(w, hAddSigma1AddChAddK));
    }
  }

  /** t1 and t2 in the order of the later rounds. */
  method LateT1T2(builder: CircuitBuilder, v: Variant, s: Variables, k: Word, x: Word) returns (t1: Word, t2: Word)
    requires Ready(builder, v, s, k, x)
    modifies builder
    ensures builder.Grown() && IsWord(builder, t1, v.limbs) && IsWord(builder, t2, v.limbs)
    ensures forall w: Assignment :: w in builder.models ==>
              WordValue(w, t1) == T1(v, Values(w, s), WordValue(w, k), WordValue(w, x)) &&
                WordValue(w, t2) == T2(v, Values(w, s))
  {
    var bigSigma0A, bigSigma1E, chEFG, majABC := LateFunctions(builder, v, s);
    t1 := LateSum(builder, v, s.h, bigSigma1E, chEFG, k, x);
    t2 := AddWord(builder, v, bigSigma0A, majABC);
  }

  /** The new working variables. */
  method Advance(builder: CircuitBuilder, v: Variant, s: Variables, t1: Word, t2: Word) returns (next: Variables)
    requires builder.Valid() && v.Valid() && AreWords(builder, s, v.limbs) && IsWord(builder, t1, v.limbs) &&
             IsWord(builder, t2, v.limbs)
    modifies builder
    ensures builder.Grown() && AreWords(builder, next, v.limbs)
    ensures forall w: Assignment :: w in builder.models ==>
              Values(w, next)
                == Working(Plus(v, WordValue(w, t1), WordValue(w, t2)),
                           WordValue(w, s.a), WordValue(w, s.b), WordValue(w, s.c),
                           Plus(v, WordValue(w, s.d), WordValue(w, t1)),
                           WordValue(w, s.e), WordValue(w, s.f), WordValue(w, s.g))
  {
    var e := AddWord(builder, v, s.d, t1);
    var a := AddWord(builder, v, t1, t2);
    next := Variables(a, s.a, s.b, s.c, e, s.e, s.f, s.g);
  }

  /** One of the first 16 rounds. */
  method EarlyRound(builder: CircuitBuilder, v: Variant, s: Variables, k: Word, x: Word) returns (next: Variables)
    requires Ready(builder, v, s, k, x)
    modifies builder
    ensures builder.Grown() && AreWords(builder, next, v.limbs)
    ensures forall w: Assignment :: w in builder.models ==>
              Values(w, next) == Round(v, Values(w, s), WordValue(w, k), WordValue(w, x))
  {
    hide T1, T2, Plus, Round, WordValue, Limbs32;
    var t1 := EarlyT1(builder, v, s, k, x);
    var t2 := EarlyT2(builder, v, s);
    next := Advance(builder, v, s, t1, t2);
    forall w: Assignment | w in builder.models
      ensures Values(w, next) == Round(v, Values(w, s), WordValue(w, k), WordValue(w, x))
    {
      RoundByParts(v, Values(w, s), WordValue(w, k), WordValue(w, x));
    }
  }

  /** One of the later rounds. */
  method LateRound(builder: CircuitBuilder, v: Variant, s: Variables, k: Word, x: Word) returns (next: Variables)
    requires Ready(builder, v, s, k, x)
    modifies builder
    ensures builder.Grown() && AreWords(builder, next, v.limbs)
    ensures forall w: Assignment :: w in builder.models ==>
              Values(w, next) == Round(v, Values(w, s), WordValue(w, k), WordValue(w, x))
  {
    hide T1, T2, Plus, Round, WordValue, Limbs32;
    var t1, t2 := LateT1T2(builder, v, s, k, x);
    next := Advance(builder, v, s, t1, t2);
    forall w: Assignment | w in builder.models
      ensures Values(w, next) == Round(v, Values(w, s), WordValue(w, k), WordValue(w, x))
    {
      RoundByParts(v, Values(w, s), WordValue(w, k), WordValue(w, x));
    }
  }

  /** The words of the window. */
  function WindowValues(w: Assignment, x: seq<Word>): (r: seq<nat>)
    ensures |r| == |x|
  {
    seq(|x|, i requires 0 <= i < |x| => WordValue(w, x[i]))
  }

  ghost predicate AllWordsIn(models: iset<Assignment>, n: nat, x: seq<Word>, limbs: nat)
  {
    forall j :: 0 <= j < |x| ==> IsWordIn(models, n, x[j], limbs)
  }

  ghost predicate AllWords(builder: CircuitBuilder, x: seq<Word>, limbs: nat)
    reads builder
  {
    AllWordsIn(builder.models, builder.wires, x, limbs)
  }

  /** The sum of the four parts of a word of the schedule, in the order of the code. */
  method ScheduleSum(builder: CircuitBuilder, v: Variant, s0: Word, s1: Word, x9: Word, x0: Word) returns (next: Word)
    requires builder.Valid() && v.Valid() && IsWord(builder, s0, v.limbs) && IsWord(builder, s1, v.limbs)
    requires IsWord(builder, x9, v.limbs) && IsWord(builder, x0, v.limbs)
    modifies builder
    ensures builder.Grown() && IsWord(builder, next, v.limbs)
    ensures forall w: Assignment :: w in builder.models ==>
              WordValue(w, next)
                == Plus(v, WordValue(w, x0), Plus(v, Plus(v, WordValue(w, s0), WordValue(w, s1)), WordValue(w, x9)))
  {
    var s0AddS1 := AddWord(builder, v, s0, s1);
    var s0AddS1AddX := AddWord(builder, v, s0AddS1, x9);
    next := AddWord(builder, v, x0, s0AddS1AddX);
  }

  /** The word of the schedule that round i stores in its slot of the window. */
  method NextScheduleWord(builder: CircuitBuilder, v: Variant, x: seq<Word>, i: nat) returns (next: Word)
    requires builder.Valid() && v.Valid() && |x| == 16 && AllWords(builder, x, v.limbs)
    modifies builder
    ensures builder.Grown() && IsWord(builder, next, v.limbs)
    ensures forall w: Assignment :: w in builder.models ==>
              WordValue(w, next) == NextWord(v, WordValue(w, x[(i + 14) % 16]), WordValue(w, x[(i + 9) % 16]),
                                             WordValue(w, x[(i + 1) % 16]), WordValue(w, x[i % 16]))
  {
    var x1, x14, x9, x0 := x[(i + 1) % 16], x[(i + 14) % 16], x[(i + 9) % 16], x[i % 16];
    var s0 := SigmaGadget(builder, v, v.sigma0, x1);
    var s1 := SigmaGadget(builder, v, v.sigma1, x14);
    next := ScheduleSum(builder, v, s0, s1, x9, x0);
    forall w: Assignment | w in builder.models
      ensures WordValue(w, next) == NextWord(v, WordValue(w, x14), WordValue(w, x9), WordValue(w, x1), WordValue(w, x0))
    {
      NextWordOrder(v, WordValue(w, x14), WordValue(w, x9), WordValue(w, x1), WordValue(w, x0));
    }
  }
}
