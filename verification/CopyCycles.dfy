// The copy permutation itself: every cell points to the next cell that holds the same variable, cyclically.
module CopyCycles {

  const PLACEHOLDER: nat := 0x8000_0000

  /** The first cell from i on that holds `x`, or the number of cells. */
  function FirstFrom(vars: seq<nat>, x: nat, i: nat): (r: nat)
    requires i <= |vars|
    ensures i <= r <= |vars|
    ensures r < |vars| ==> vars[r] == x
    ensures forall j :: i <= j < r ==> vars[j] != x
    decreases |vars| - i
  {
    if i == |vars| || vars[i] == x then i else FirstFrom(vars, x, i + 1)
  }

  /** The last cell before i that holds `x`, plus one; zero if there is none. */
  function LastBefore(vars: seq<nat>, x: nat, i: nat): (r: nat)
    requires i <= |vars|
    ensures r <= i
    ensures r > 0 ==> vars[r - 1] == x
    ensures forall j :: r <= j < i ==> vars[j] != x
  {
    if i == 0 || vars[i - 1] == x then i else LastBefore(vars, x, i - 1)
  }

  /** Whether the pipeline recognises the placeholder: only when no greater variable index occurs. */
  predicate PlaceholderIsLast(vars: seq<nat>)
  {
    forall c :: 0 <= c < |vars| ==> vars[c] <= PLACEHOLDER
  }

  predicate Fixed(vars: seq<nat>, c: nat)
    requires c < |vars|
  {
    vars[c] == PLACEHOLDER && PlaceholderIsLast(vars)
  }

  /** The cell that follows c. */
  function Next(vars: seq<nat>, c: nat): (r: nat)
    requires c < |vars|
    ensures r < |vars| && vars[r] == vars[c]
  {
    if Fixed(vars, c) then c
    else
      var d := FirstFrom(vars, vars[c], c + 1);
      if d < |vars| then d else FirstFrom(vars, vars[c], 0)
  }

  /** The cell that c follows. */
  function Previous(vars: seq<nat>, c: nat): (r: nat)
    requires c < |vars|
    ensures r < |vars| && vars[r] == vars[c]
  {
    if Fixed(vars, c) then c
    else
      var d := LastBefore(vars, vars[c], c);
      if d > 0 then d - 1 else LastBefore(vars, vars[c], |vars|) - 1
  }

  /**
   * Which cell follows: the next one with the same variable, or the first one if there is none behind. Only with the
   * index 2^31, and no greater one anywhere, a cell follows itself.
   */
  lemma NextIsNearest(vars: seq<nat>, c: nat)
    requires c < |vars|
    ensures var d, x := Next(vars, c), vars[c];
            if x == 0x8000_0000 && (forall e :: 0 <= e < |vars| ==> vars[e] <= 0x8000_0000) then d == c
            else if d > c then vars[d] == x && forall e :: c < e < d ==> vars[e] != x
            else vars[d] == x && forall e :: 0 <= e < d || c < e < |vars| ==> vars[e] != x
  {
  }

  /** The permutation is a bijection: going on and going back undo each other. */
  lemma NextIsBijective(vars: seq<nat>, c: nat)
    requires c < |vars|
    ensures Previous(vars, Next(vars, c)) == c
    ensures Next(vars, Previous(vars, c)) == c
  {
  }

  /** k steps along the permutation. */
  function Walk(vars: seq<nat>, c: nat, k: nat): (r: nat)
    requires c < |vars|
    ensures r < |vars| && vars[r] == vars[c]
    decreases k
  {
    if k == 0 then c else Walk(vars, Next(vars, c), k - 1)
  }

  lemma {:induction false} WalkOn(vars: seq<nat>, c: nat, k: nat, j: nat)
    requires c < |vars|
    ensures Walk(vars, Walk(vars, c, k), j) == Walk(vars, c, k + j)
    decreases k
  {
    hide Next;
    if k > 0 {
      WalkOn(vars, Next(vars, c), k - 1, j);
    }
  }

  lemma {:induction false} WalkUp(vars: seq<nat>, c: nat, d: nat) returns (k: nat)
    requires c <= d < |vars| && vars[c] == vars[d] && !Fixed(vars, c)
    ensures Walk(vars, c, k) == d
    decreases d - c
  {
    if c == d {
      k := 0;
    } else {
      k := WalkUp(vars, Next(vars, c), d);
      k := k + 1;
    }
  }

  /** The cycles are exactly the classes: every cell with the same variable is reached, and no other. */
  lemma CyclesAreClasses(vars: seq<nat>, c: nat, d: nat) returns (k: nat)
    requires c < |vars| && d < |vars| && !Fixed(vars, c)
    ensures vars[c] == vars[d] <==> Walk(vars, c, k) == d
    ensures forall j: nat :: vars[Walk(vars, c, j)] == vars[c]
  {
    if vars[c] == vars[d] {
      var last, first := LastBefore(vars, vars[c], |vars|) - 1, FirstFrom(vars, vars[c], 0);
      var up := WalkUp(vars, c, last);
      var on := WalkUp(vars, first, d);
      assert Next(vars, last) == first;
      WalkOn(vars, c, up, on + 1);
      k := up + (on + 1);
    } else {
      k := 0;
    }
  }

  /** The values in the cells are unchanged when every cell takes the value of its successor. */
  ghost predicate Invariant<T(!new)>(vars: seq<nat>, values: seq<T>)
    requires |values| == |vars|
  {
    forall c: nat :: c < |vars| ==> values[Next(vars, c)] == values[c]
  }

  ghost predicate ConstantOnVariables<T(!new)>(vars: seq<nat>, values: seq<T>)
    requires |values| == |vars|
  {
    forall c: nat, d: nat :: c < |vars| && d < |vars| && vars[c] == vars[d] && !Fixed(vars, c) ==>
      values[c] == values[d]
  }

  lemma {:induction false} InvariantWalk<T(!new)>(vars: seq<nat>, values: seq<T>, c: nat, k: nat)
    requires |values| == |vars| && Invariant(vars, values) && c < |vars|
    ensures values[Walk(vars, c, k)] == values[c]
    decreases k
  {
    hide Next;
    if k > 0 {
      InvariantWalk(vars, values, Next(vars, c), k - 1);
    }
  }

  /** The copy argument: an assignment is invariant exactly when cells with the same variable hold the same value. */
  lemma InvariantIffConstant<T(!new)>(vars: seq<nat>, values: seq<T>)
    requires |values| == |vars|
    ensures Invariant(vars, values) <==> ConstantOnVariables(vars, values)
  {
    if Invariant(vars, values) {
      forall c: nat, d: nat | c < |vars| && d < |vars| && vars[c] == vars[d] && !Fixed(vars, c)
        ensures values[c] == values[d]
      {
        var k := CyclesAreClasses(vars, c, d);
        InvariantWalk(vars, values, c, k);
      }
    } else {
      var c: nat :| c < |vars| && values[Next(vars, c)] != values[c];
    }
  }

  /** All placeholder cells are left fixed exactly when there is no greater index, or at most one placeholder. */
  lemma PlaceholdersFixed(vars: seq<nat>)
    ensures (forall c: nat :: c < |vars| && vars[c] == PLACEHOLDER ==> Next(vars, c) == c)
       <==> PlaceholderIsLast(vars) ||
            (forall c, d :: 0 <= c < d < |vars| ==> vars[c] != PLACEHOLDER || vars[d] != PLACEHOLDER)
  {
    if !PlaceholderIsLast(vars) {
      if c, d :| 0 <= c < d < |vars| && vars[c] == PLACEHOLDER && vars[d] == PLACEHOLDER {
        assert Next(vars, c) != c;
      } else {
        forall c: nat | c < |vars| && vars[c] == PLACEHOLDER
          ensures Next(vars, c) == c
        {
        }
      }
    }
  }

  /** For instance, one greater index chains two placeholder cells to each other. */
  lemma PlaceholdersChained()
    ensures Next([PLACEHOLDER, PLACEHOLDER, PLACEHOLDER + 1], 0) == 1
  {
    var vars := [PLACEHOLDER, PLACEHOLDER, PLACEHOLDER + 1];
    assert vars[2] > PLACEHOLDER && !PlaceholderIsLast(vars);
  }
}
