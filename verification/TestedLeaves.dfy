// The leaf hash that the tests expect, and exactly where the leaf kernels compute it.
module TestedLeaves {
  import opened Field
  import opened Bits
  import opened Leaves
  import opened CosetPasses

  // ---- The hash of the tests ----

  /** One round of the tests: every element of the rate is a value, or zero once the values are used up. */
  function TestedRound(s: State, values: seq<Fp>): State
    requires |values| <= RATE
  {
    seq<Fp>(STATE_WIDTH, i requires 0 <= i < STATE_WIDTH =>
      if i < |values| then values[i] else if i < RATE then 0 else s[i])
  }

  /** The state after all values: the rest of the last round is cleared, and every round ends in the permutation. */
  function TestedRow(perm: Permutation, s: State, values: seq<Fp>): State
    decreases |values|
  {
    if values == [] then s
    else if |values| <= RATE then perm(TestedRound(s, values))
    else TestedRow(perm, perm(TestedRound(s, values[..RATE])), values[RATE..])
  }

  /** In a full round, or over zeros, the kernels do the same. */
  lemma SameRound(s: State, values: seq<Fp>)
    requires |values| <= RATE && (|values| == RATE || s == ZERO_STATE)
    ensures TestedRound(s, values) == Overwrite(s, values)
  {
  }

  function TestedDigest(perm: Permutation, row: seq<Fp>): Digest
  {
    LeafDigest(TestedRow(perm, ZERO_STATE, row))
  }

  /** The digest of a thread that permutes or does not. */
  function ThreadDigest(perm: Permutation, hash: bool, row: seq<Fp>): Digest
  {
    LeafDigest(AbsorbRow(perm, hash, ZERO_STATE, row))
  }

  /** A row for which the kernels meet the tests: permuted, and a single round or whole rounds. */
  predicate Meets(hash: bool, row: seq<Fp>)
  {
    row == [] || (hash && (|row| <= RATE || |row| % RATE == 0))
  }

  // ---- Where they agree ----

  lemma {:induction false} WholeRoundsAgree(perm: Permutation, s: State, a: seq<Fp>)
    requires |a| % RATE == 0
    ensures AbsorbRow(perm, true, s, a) == TestedRow(perm, s, a)
    decreases |a|
  {
    if a != [] {
      SameRound(s, a[..RATE]);
      if |a| == RATE {
        assert a == a[..RATE];
      } else {
        WholeRoundsAgree(perm, perm(Overwrite(s, a[..RATE])), a[RATE..]);
      }
    }
  }

  lemma Agree(perm: Permutation, hash: bool, row: seq<Fp>)
    requires Meets(hash, row)
    ensures ThreadDigest(perm, hash, row) == TestedDigest(perm, row)
  {
    if row == [] {
    } else if |row| <= RATE {
      SameRound(ZERO_STATE, row);
    } else {
      WholeRoundsAgree(perm, ZERO_STATE, row);
    }
  }

  // ---- Where they do not ----

  /** `perm` really permutes the states. */
  ghost predicate Invertible(perm: Permutation)
  {
    exists inv: Permutation :: Inverts(inv, perm)
  }

  ghost predicate Inverts(inv: Permutation, perm: Permutation)
  {
    forall s: State :: inv(perm(s)) == s && perm(inv(s)) == s
  }

  /** The first and the last element of the rate change places, and the last one is shifted by d. */
  function Swap(d: Fp): Permutation
  {
    (s: State) => s[0 := s[7]][7 := Add(s[0], d)]
  }

  function SwapBack(d: Fp): Permutation
  {
    (s: State) => s[0 := Sub(s[7], d)][7 := s[0]]
  }

  lemma ShiftUndone(a: Fp, d: Fp)
    ensures Sub(Add(a, d), d) == a && Add(Sub(a, d), d) == a
  {
    var q, r := (a + d) / P, (a - d) / P;
    ModUnique(Add(a, d) - d, -q, a);
    ModUnique(Sub(a, d) + d, -r, a);
  }

  lemma SwapInvertible(d: Fp)
    ensures Invertible(Swap(d))
  {
    hide Add, Sub;
    forall s: State
      ensures SwapBack(d)(Swap(d)(s)) == s && Swap(d)(SwapBack(d)(s)) == s
    {
      ShiftUndone(s[0], d);
      ShiftUndone(s[7], d);
    }
    assert Inverts(SwapBack(d), Swap(d));
  }

  /** A row cut after whole rounds, for the tests. */
  lemma {:induction false} TestedSplit(perm: Permutation, s: State, a: seq<Fp>, b: seq<Fp>)
    requires |a| % RATE == 0
    ensures TestedRow(perm, s, a + b) == TestedRow(perm, TestedRow(perm, s, a), b)
    decreases |a|
  {
    if a == [] {
      assert a + b == b;
    } else {
      var next := perm(TestedRound(s, a[..RATE]));
      assert (a + b)[..RATE] == a[..RATE] && (a + b)[RATE..] == a[RATE..] + b;
      assert |a| == RATE ==> a == a[..RATE];
      TestedSplit(perm, next, a[RATE..], b);
      if |a + b| == RATE {
        assert b == [] && a + b == a;
      }
    }
  }

  lemma {:induction false} KernelSplit(perm: Permutation, hash: bool, s: State, a: seq<Fp>, b: seq<Fp>)
    requires |a| % RATE == 0
    ensures AbsorbRow(perm, hash, s, a + b) == AbsorbRow(perm, hash, AbsorbRow(perm, hash, s, a), b)
  {
    MultipleProduct(|a| / RATE, RATE);
    AbsorbRowSplit(perm, hash, s, a, b);
  }

  /** Where the last, incomplete round of a row begins. */
  function LastRound(row: seq<Fp>): (start: nat)
    requires row != []
    ensures start < |row| <= start + RATE && start % RATE == 0
  {
    (|row| - 1) / RATE * RATE
  }

  /** An incomplete round lacks the last element of the rate. */
  lemma IncompleteRound(row: seq<Fp>)
    requires row != [] && |row| % RATE != 0
    ensures |row| < LastRound(row) + RATE
  {
  }

  /** Without the permutation the digest shows the values of the last round, whatever the permutation is. */
  lemma UnhashedStart(perm: Permutation, row: seq<Fp>)
    requires row != []
    ensures ThreadDigest(perm, false, row)[0] == row[LastRound(row)]
  {
    var n := LastRound(row);
    assert row == row[..n] + row[n..];
    KernelSplit(perm, false, ZERO_STATE, row[..n], row[n..]);
  }

  /** The permutation of the tests brings the last element of the rate, or zero, to the front. */
  lemma TestedStart(d: Fp, row: seq<Fp>)
    requires row != []
    ensures TestedDigest(Swap(d), row)[0] == if |row| == LastRound(row) + RATE then row[|row| - 1] else 0
  {
    var n := LastRound(row);
    assert row == row[..n] + row[n..];
    TestedSplit(Swap(d), ZERO_STATE, row[..n], row[n..]);
  }

  /** After whole rounds the last element of the rate is the first one of the last round, shifted. */
  lemma StaleElement(d: Fp, s: State, a: seq<Fp>)
    requires |a| % RATE == 0 && a != []
    ensures AbsorbRow(Swap(d), true, s, a)[7] == Add(a[|a| - RATE], d)
  {
    var n: nat := |a| - RATE;
    assert a == a[..n] + a[n..];
    KernelSplit(Swap(d), true, s, a[..n], a[n..]);
  }

  lemma SeventhToFront(d: Fp, s: State, last: seq<Fp>)
    requires 0 < |last| < RATE
    ensures AbsorbRow(Swap(d), true, s, last)[0] == s[7]
  {
  }

  /** In an incomplete round after others, the kernel brings the stale element to the front. */
  lemma StaleStart(d: Fp, row: seq<Fp>)
    requires |row| > RATE && |row| % RATE != 0
    ensures LastRound(row) >= RATE
    ensures ThreadDigest(Swap(d), true, row)[0] == Add(row[LastRound(row) - RATE], d)
  {
    hide Add, AbsorbRow, Swap;
    var n := LastRound(row);
    IncompleteRound(row);
    assert row == row[..n] + row[n..];
    KernelSplit(Swap(d), true, ZERO_STATE, row[..n], row[n..]);
    StaleElement(d, ZERO_STATE, row[..n]);
    SeventhToFront(d, AbsorbRow(Swap(d), true, ZERO_STATE, row[..n]), row[n..]);
  }

  /** Adding d to the first element only. */
  function Shift(d: Fp): Permutation
  {
    (s: State) => s[0 := Add(s[0], d)]
  }

  lemma ShiftInvertible(d: Fp)
    ensures Invertible(Shift(d))
  {
    hide Add, Sub;
    var back: Permutation := (s: State) => s[0 := Sub(s[0], d)];
    forall s: State
      ensures back(Shift(d)(s)) == s && Shift(d)(back(s)) == s
    {
      ShiftUndone(s[0], d);
    }
    assert Inverts(back, Shift(d));
  }

  lemma ShiftedStart(row: seq<Fp>)
    requires row != []
    ensures TestedDigest(Shift(1), row)[0] == Add(row[LastRound(row)], 1)
  {
    var n := LastRound(row);
    assert row == row[..n] + row[n..];
    TestedSplit(Shift(1), ZERO_STATE, row[..n], row[n..]);
  }

  /** For every other row there is a permutation, even an invertible one, with which they differ. */
  lemma Differ(hash: bool, row: seq<Fp>) returns (perm: Permutation)
    requires !Meets(hash, row)
    ensures Invertible(perm) && ThreadDigest(perm, hash, row) != TestedDigest(perm, row)
  {
    hide TestedDigest, ThreadDigest;
    if hash {
      var d := Sub(1, row[LastRound(row) - RATE]);
      perm := Swap(d);
      SwapInvertible(d);
      StaleStart(d, row);
      TestedStart(d, row);
      IncompleteRound(row);
      ShiftUndone(1, row[LastRound(row) - RATE]);
      assert ThreadDigest(perm, hash, row)[0] == 1;
    } else {
      perm := Shift(1);
      ShiftInvertible(1);
      UnhashedStart(perm, row);
      ShiftedStart(row);
    }
  }

  // ---- The exact condition ----

  /**
   * The digest of a row is the one of the tests, for every permutation, exactly when there is nothing to hash, or more
   * than four values that fill a single round at most, or whole rounds.
   */
  lemma KernelMeetsTests(row: seq<Fp>)
    ensures (forall perm: Permutation :: RowDigest(perm, row) == TestedDigest(perm, row))
       <==> row == [] || (|row| > CAPACITY && (|row| <= RATE || |row| % RATE == 0))
  {
    if Meets(|row| > CAPACITY, row) {
      forall perm: Permutation
        ensures RowDigest(perm, row) == TestedDigest(perm, row)
      {
        Agree(perm, |row| > CAPACITY, row);
      }
    } else {
      var perm := Differ(|row| > CAPACITY, row);
      assert RowDigest(perm, row) == ThreadDigest(perm, |row| > CAPACITY, row);
    }
  }

  /** The same for any number of rows per hash, where the kernels permute when there are more than four columns. */
  lemma ThreadMeetsTests(cols: nat, row: seq<Fp>)
    ensures (forall perm: Permutation :: ThreadDigest(perm, cols > CAPACITY, row) == TestedDigest(perm, row))
       <==> row == [] || (cols > CAPACITY && (|row| <= RATE || |row| % RATE == 0))
  {
    if Meets(cols > CAPACITY, row) {
      forall perm: Permutation
        ensures ThreadDigest(perm, cols > CAPACITY, row) == TestedDigest(perm, row)
      {
        Agree(perm, cols > CAPACITY, row);
      }
    } else {
      var perm := Differ(cols > CAPACITY, row);
    }
  }

  /** The tests hash 125 columns of two rows: 250 values, which do not fill their last round. */
  lemma TestInputDiffers(row: seq<Fp>) returns (perm: Permutation)
    requires |row| == 125 * 2
    ensures Invertible(perm) && ThreadDigest(perm, 125 > CAPACITY, row) != TestedDigest(perm, row)
  {
    perm := Differ(true, row);
  }
}
