// The data-parallel primitives of the copy-permutation pipeline: fill, exclusive scan, stable sort, run-length
// encoding.
module Scans {

  /** Sum of the first i elements. */
  function Sum(s: seq<nat>, i: nat): nat
    requires i <= |s|
  {
    if i == 0 then 0 else Sum(s, i - 1) + s[i - 1]
  }

  lemma {:induction false} SumMonotone(s: seq<nat>, i: nat, j: nat)
    requires i <= j <= |s|
    ensures Sum(s, i) <= Sum(s, j)
  {
    if i < j {
      SumMonotone(s, i, j - 1);
    }
  }

  lemma {:induction false} SumOfEqual(s: seq<nat>, t: seq<nat>, i: nat)
    requires i <= |s| && i <= |t| && s[..i] == t[..i]
    ensures Sum(s, i) == Sum(t, i)
  {
    if i > 0 {
      assert s[..i][i - 1] == t[..i][i - 1] && s[..i][..i - 1] == t[..i][..i - 1];
      assert s[..i - 1] == s[..i][..i - 1] && t[..i - 1] == t[..i][..i - 1];
      SumOfEqual(s, t, i - 1);
    }
  }

  lemma {:induction false} SumOfOnes(s: seq<nat>, i: nat)
    requires i <= |s| && forall j :: 0 <= j < i ==> s[j] == 1
    ensures Sum(s, i) == i
  {
    if i > 0 {
      SumOfOnes(s, i - 1);
    }
  }

  /** `set_by_val`, `set_to_zero`. */
  method Fill(a: array<nat>, x: nat)
    modifies a
    ensures forall i :: 0 <= i < a.Length ==> a[i] == x
  {
    for i := 0 to a.Length
      invariant forall j :: 0 <= j < i ==> a[j] == x
    {
      a[i] := x;
    }
  }

  /** `scan_in_place`, exclusive: every element is replaced by the sum of those before it. */
  method ScanInPlace(a: array<nat>)
    modifies a
    ensures forall i :: 0 <= i < a.Length ==> a[i] == Sum(old(a[..]), i)
  {
    ghost var was := a[..];
    var sum: nat := 0;
    for i := 0 to a.Length
      invariant sum == Sum(was, i)
      invariant forall j :: 0 <= j < i ==> a[j] == Sum(was, j)
      invariant forall j :: i <= j < a.Length ==> a[j] == was[j]
    {
      var x := a[i];
      a[i] := sum;
      sum := sum + x;
    }
  }

  /** Cell numbers, as the scan of ones. */
  method Iota(a: array<nat>)
    modifies a
    ensures forall i :: 0 <= i < a.Length ==> a[i] == i
  {
    Fill(a, 1);
    ghost var ones := a[..];
    ScanInPlace(a);
    forall i | 0 <= i < a.Length
      ensures a[i] == i
    {
      SumOfOnes(ones, i);
    }
  }

  // ---- Stable sort ----

  /** Position a comes before position b in a stable sort by key. */
  predicate Before(keys: seq<nat>, a: nat, b: nat)
  {
    a < |keys| && b < |keys| && (keys[a] < keys[b] || (keys[a] == keys[b] && a < b))
  }

  /** `order` lists the first n positions in the order of a stable sort. */
  ghost predicate StableOrder(keys: seq<nat>, order: seq<nat>, n: nat)
  {
    && |order| == n <= |keys|
    && (forall p :: 0 <= p < n ==> order[p] < n)
    && (forall p, q :: 0 <= p < q < n ==> Before(keys, order[p], order[q]))
    && (forall c: nat :: c < n ==> c in order)
  }

  /** Where position n has to be inserted. */
  method InsertionPoint(keys: seq<nat>, order: seq<nat>, n: nat) returns (p: nat)
    requires n < |keys| && StableOrder(keys, order, n)
    ensures p <= n
    ensures forall q :: 0 <= q < p ==> Before(keys, order[q], n)
    ensures forall q :: p <= q < n ==> Before(keys, n, order[q])
  {
    p := n;
    while p > 0 && keys[order[p - 1]] > keys[n]
      invariant p <= n
      invariant forall q :: p <= q < n ==> Before(keys, n, order[q])
    {
      p := p - 1;
    }
    forall q | 0 <= q < p
      ensures Before(keys, order[q], n)
    {
      if q < p - 1 {
        assert Before(keys, order[q], order[p - 1]);
      }
    }
  }

  lemma Inserted(keys: seq<nat>, order: seq<nat>, n: nat, p: nat)
    requires n < |keys| && StableOrder(keys, order, n) && p <= n
    requires forall q :: 0 <= q < p ==> Before(keys, order[q], n)
    requires forall q :: p <= q < n ==> Before(keys, n, order[q])
    ensures StableOrder(keys, order[..p] + [n] + order[p..], n + 1)
  {
    var next := order[..p] + [n] + order[p..];
    forall c: nat | c < n + 1
      ensures c in next
    {
      if c < n {
        assert c in order;
        var q :| 0 <= q < n && order[q] == c;
        assert next[if q < p then q else q + 1] == c;
      } else {
        assert next[p] == c;
      }
    }
  }

  /** `sort_pairs` by ascending key: a stable sort of the positions, applied to keys and values. */
  method SortPairs(keysIn: array<nat>, keysOut: array<nat>, valuesIn: array<nat>, valuesOut: array<nat>)
    returns (ghost order: seq<nat>)
    requires keysIn.Length == keysOut.Length == valuesIn.Length == valuesOut.Length
    requires keysIn != keysOut && keysIn != valuesOut && valuesIn != keysOut && valuesIn != valuesOut &&
             keysOut != valuesOut
    modifies keysOut, valuesOut
    ensures StableOrder(keysIn[..], order, keysIn.Length)
    ensures forall p :: 0 <= p < keysIn.Length ==> keysOut[p] == keysIn[order[p]] && valuesOut[p] == valuesIn[order[p]]
  {
    var sorted: seq<nat> := [];
    for n: nat := 0 to keysIn.Length
      invariant StableOrder(keysIn[..], sorted, n)
    {
      var p := InsertionPoint(keysIn[..], sorted, n);
      Inserted(keysIn[..], sorted, n, p);
      sorted := sorted[..p] + [n] + sorted[p..];
    }
    order := sorted;
    for p := 0 to keysIn.Length
      invariant forall q :: 0 <= q < p ==> keysOut[q] == keysIn[order[q]] && valuesOut[q] == valuesIn[order[q]]
    {
      keysOut[p] := keysIn[sorted[p]];
      valuesOut[p] := valuesIn[sorted[p]];
    }
  }
}
