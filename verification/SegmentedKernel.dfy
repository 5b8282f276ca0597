// The leaves kernel with a sponge state saved between launches.
module SegmentedKernel {
  import opened Field
  import opened Bits
  import opened Leaves

  const THREADS_PER_BLOCK: nat := 64

  /** Grid size times block size: the distance between the three parts of the saved states. */
  function LaunchedThreads(count: nat): nat
  {
    var block := if count < THREADS_PER_BLOCK then count else THREADS_PER_BLOCK;
    if block == 0 then 0 else (count + block - 1) / block * block
  }

  lemma WholeBlocks(blocks: nat)
    ensures (THREADS_PER_BLOCK * blocks + THREADS_PER_BLOCK - 1) / THREADS_PER_BLOCK == blocks
  {
  }

  /** For a power of two no thread is superfluous, so the three parts are adjacent. */
  lemma NoSuperfluousThreads(bits: nat)
    ensures LaunchedThreads(Pow2(bits)) == Pow2(bits)
  {
    if bits >= 6 {
      var low: nat := bits - 6;
      assert Pow2(low + 6) == 64 * Pow2(low) by {
        assert Pow2(low + 1) == 2 * Pow2(low) && Pow2(low + 2) == 2 * Pow2(low + 1) &&
               Pow2(low + 3) == 2 * Pow2(low + 2);
        assert Pow2(low + 4) == 2 * Pow2(low + 3) && Pow2(low + 5) == 2 * Pow2(low + 4) &&
               Pow2(low + 6) == 2 * Pow2(low + 5);
      }
      WholeBlocks(Pow2(low));
    } else {
      SmallPower(bits);
      OneBlock(Pow2(bits));
    }
  }

  lemma SmallPower(bits: nat)
    requires bits < 6
    ensures Pow2(bits) < THREADS_PER_BLOCK
  {
    Pow2Monotone(bits, 5);
    assert Pow2(5) == 32;
  }

  lemma OneBlock(count: nat)
    requires 0 < count < THREADS_PER_BLOCK
    ensures LaunchedThreads(count) == count
  {
    assert (count + count - 1) / count == 1 by {
      DivModUnique(count + count - 1, count, 1, count - 1);
    }
  }

  /** The hash flag of a launch. */
  function Hashes(cols: nat, load: bool): bool
  {
    cols > CAPACITY || load
  }

  function Joined(a: seq<Fp>, b: seq<Fp>, c: seq<Fp>): State
    requires |a| == |b| == |c| == CAPACITY
  {
    a + b + c
  }

  /** The state saved for leaf t. */
  function Saved(results: seq<Digest>, count: nat, t: nat): State
    requires t < count && 3 * count <= |results|
  {
    Joined(results[t], results[count + t], results[2 * count + t])
  }

  function InitialState(results: seq<Digest>, count: nat, t: nat, load: bool): State
    requires t < count && 3 * count <= |results|
  {
    if load then Saved(results, count, t) else ZERO_STATE
  }

  /** What a launch leaves behind for leaf t, when its thread ends in `state`. */
  ghost predicate LeftBehind(now: seq<Digest>, count: nat, t: nat, store: bool, state: State)
    requires t < count && 3 * count <= |now|
  {
    if store then Saved(now, count, t) == state else now[t] == LeafDigest(state)
  }

  /** The three parts of a state that was left behind, and the state that is loaded again. */
  lemma PartsLeftBehind(now: seq<Digest>, count: nat, t: nat, state: State)
    requires t < count && 3 * count <= |now| && LeftBehind(now, count, t, true, state)
    ensures now[t] == state[..4] && now[count + t] == state[4..8] && now[2 * count + t] == state[8..]
    ensures InitialState(now, count, t, true) == state && InitialState(now, count, t, false) == ZERO_STATE
  {
    var a: seq<Fp>, b: seq<Fp>, c: seq<Fp> := now[t], now[count + t], now[2 * count + t];
    assert a + b + c == state;
  }

  /** Threads before `t` are done, the others still have what they need. */
  ghost predicate ThreadsDone(target: seq<State>, was: seq<Digest>, now: seq<Digest>, store: bool, t: nat)
    requires 3 * |target| <= |was| == |now|
  {
    && (forall s: nat :: s < t && s < |target| ==> LeftBehind(now, |target|, s, store, target[s]))
    && (forall s: nat :: t <= s < |target| ==> Saved(now, |target|, s) == Saved(was, |target|, s))
  }

  lemma ThreadDone(target: seq<State>, was: seq<Digest>, now: seq<Digest>, next: seq<Digest>, store: bool, t: nat)
    requires 3 * |target| <= |was| == |now| == |next| && t < |target|
    requires ThreadsDone(target, was, now, store, t)
    requires LeftBehind(next, |target|, t, store, target[t])
    requires forall p: nat :: p < |now| && p != t && p != |target| + t && p != 2 * |target| + t ==> next[p] == now[p]
    ensures ThreadsDone(target, was, next, store, t + 1)
  {
    var count := |target|;
    forall s: nat | s < t + 1
      ensures LeftBehind(next, count, s, store, target[s])
    {
      if s < t {
        assert LeftBehind(now, count, s, store, target[s]);
        assert next[s] == now[s] && next[count + s] == now[count + s] && next[2 * count + s] == now[2 * count + s];
      }
    }
    forall s: nat | t + 1 <= s < count
      ensures Saved(next, count, s) == Saved(was, count, s)
    {
      assert next[s] == now[s] && next[count + s] == now[count + s] && next[2 * count + s] == now[2 * count + s];
    }
  }

  /** The stores at the end of a thread; the parts of a saved state are `distance` apart. */
  method Store(results: array<Digest>, count: nat, distance: nat, t: nat, store: bool, state: State)
    requires t < count && 3 * count <= results.Length && (store ==> distance == count)
    modifies results
    ensures LeftBehind(results[..], count, t, store, state)
    ensures results[t] == state[..4]
    ensures store ==> results[count + t] == state[4..8] && results[2 * count + t] == state[8..]
    ensures forall p: nat :: p < results.Length && p != t && p != count + t && p != 2 * count + t ==>
            results[p] == old(results[p])
  {
    results[t] := state[..CAPACITY];
    if store {
      results[distance + t] := state[CAPACITY..STATE_WIDTH - CAPACITY];
      results[2 * distance + t] := state[STATE_WIDTH - CAPACITY..];
      assert state == state[..CAPACITY] + state[CAPACITY..STATE_WIDTH - CAPACITY] + state[STATE_WIDTH - CAPACITY..];
    }
  }

  /** The state in which the thread of leaf t ends. */
  function Ending(perm: Permutation, v: seq<Fp>, count: nat, rows: nat, hash: bool, init: State, t: nat): State
  {
    if Product(t, rows) + rows <= Product(count, rows) && rows > 0
    then AbsorbRow(perm, hash, init, LeafValues(v, Product(count, rows), Product(t, rows), rows)) else init
  }

  lemma ThreadFits(t: nat, count: nat, rows: nat)
    requires t < count && rows > 0
    ensures Product(t, rows) + rows <= Product(count, rows) && Product(count, rows) > 0
  {
    MultipleAtLeast(count - t, rows);
    assert (count - t) * rows == count * rows - t * rows;
  }

  /** The row of leaf t. */
  method SegmentThread(perm: Permutation, hash: bool, buffer: array<Fp>, count: nat, rows: nat, cols: nat, init: State,
                       t: nat, ghost v: seq<Fp>) returns (state: State)
    requires t < count && rows > 0 && |v| == cols * Product(count, rows) && |v| <= buffer.Length && v == buffer[..|v|]
    ensures state == Ending(perm, v, count, rows, hash, init, t)
  {
    ThreadFits(t, count, rows);
    ghost var row := LeafValues(v, Product(count, rows), Product(t, rows), rows);
    LeafValuesLength(v, Product(count, rows), Product(t, rows), rows, cols);
    state := LeafThread(perm, hash, buffer, 0, Product(count, rows), Product(t, rows), rows, cols, init, v, row);
  }

  /** The ends of all threads of a launch. */
  function Endings(perm: Permutation, v: seq<Fp>, count: nat, rows: nat, hash: bool, load: bool,
                   was: seq<Digest>): (r: seq<State>)
    requires 3 * count <= |was|
    ensures |r| == count
  {
    seq<State>(count,
               t requires 0 <= t < count => Ending(perm, v, count, rows, hash, InitialState(was, count, t, load), t))
  }

  /**
   * `launch_leaves_kernel_ptr`: `cols` extended columns at the start of the buffer.
   * The result is false when the assertion about whole permutations fails.
   */
  method LaunchLeaves(perm: Permutation, buffer: array<Fp>, cols: nat, count: nat, rows: nat, load: bool, store: bool,
                      results: array<Digest>, ghost v: seq<Fp>) returns (ok: bool)
    requires rows > 0 && 3 * count <= results.Length && (load || store ==> LaunchedThreads(count) == count)
    requires |v| == cols * Product(count, rows) && |v| <= buffer.Length && v == buffer[..|v|]
    modifies results
    ensures ok <==> !store || (rows * cols) % RATE == 0
    ensures !ok ==> results[..] == old(results[..])
    ensures ok ==> ThreadsDone(Endings(perm, v, count, rows, Hashes(cols, load), load, old(results[..])),
                               old(results[..]), results[..], store, count)
  {
    if store && (rows * cols) % RATE != 0 {
      return false;
    }
    ok := true;
    var threads := LaunchedThreads(count);
    ghost var was := results[..];
    ghost var target := Endings(perm, v, count, rows, Hashes(cols, load), load, was);
    for t: nat := 0 to count
      invariant results.Length == |was| && ThreadsDone(target, was, results[..], store, t)
    {
      assert Saved(results[..], count, t) == Saved(was, count, t);
      var init := if load then Joined(results[t], results[threads + t], results[2 * threads + t]) else ZERO_STATE;
      var state := SegmentThread(perm, Hashes(cols, load), buffer, count, rows, cols, init, t, v);
      ghost var now := results[..];
      Store(results, count, threads, t, store, state);
      ThreadDone(target, was, now, results[..], store, t);
    }
  }
}
