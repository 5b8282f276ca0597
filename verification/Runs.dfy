// Runs of equal keys in a sorted sequence: encoding them, and numbering them by a scan over their marked ends.
module Runs {
  import opened Scans

  /** Run r of `s`, as the encoding describes it. */
  ghost predicate IsRun(s: seq<nat>, unique: seq<nat>, lengths: seq<nat>, r: nat)
    requires |unique| == |lengths| && r < |lengths|
  {
    && lengths[r] > 0 && Sum(lengths, r) + lengths[r] <= |s|
    && (forall p :: Sum(lengths, r) <= p < Sum(lengths, r) + lengths[r] ==> s[p] == unique[r])
    && (Sum(lengths, r) + lengths[r] < |s| ==> s[Sum(lengths, r) + lengths[r]] != unique[r])
  }

  /** `s` consists of `runs` maximal runs; the lengths beyond are zero. */
  ghost predicate Encoded(s: seq<nat>, unique: seq<nat>, lengths: seq<nat>, runs: nat)
  {
    && |unique| == |lengths| == |s| && runs <= |s|
    && (forall r: nat :: r < runs ==> IsRun(s, unique, lengths, r))
    && (forall r: nat :: runs <= r < |s| ==> lengths[r] == 0)
    && Sum(lengths, runs) == |s|
  }

  lemma RunStored(s: seq<nat>, unique: seq<nat>, lengths: seq<nat>, unique': seq<nat>, lengths': seq<nat>, runs: nat,
                  end: nat)
    requires |unique| == |lengths| == |unique'| == |lengths'| && runs < |lengths| && Sum(lengths, runs) < end <= |s|
    requires forall r: nat :: r < runs ==> IsRun(s, unique, lengths, r)
    requires unique' == unique[runs := s[Sum(lengths, runs)]] && lengths' == lengths[runs := end - Sum(lengths, runs)]
    requires forall p :: Sum(lengths, runs) <= p < end ==> s[p] == s[Sum(lengths, runs)]
    requires end < |s| ==> s[end] != s[Sum(lengths, runs)]
    ensures Sum(lengths', runs + 1) == end
    ensures forall r: nat :: r < runs + 1 ==> IsRun(s, unique', lengths', r)
  {
    forall r: nat | r < runs + 1
      ensures IsRun(s, unique', lengths', r)
    {
      SumOfEqual(lengths, lengths', r);
      if r < runs {
        assert IsRun(s, unique, lengths, r);
      }
    }
    SumOfEqual(lengths, lengths', runs);
  }

  lemma {:induction false} SumAtLeast(lengths: seq<nat>, r: nat)
    requires r <= |lengths| && forall q :: 0 <= q < r ==> lengths[q] > 0
    ensures Sum(lengths, r) >= r
  {
    if r > 0 {
      SumAtLeast(lengths, r - 1);
    }
  }

  method RunEnd(s: array<nat>, start: nat) returns (end: nat)
    requires start < s.Length
    ensures start < end <= s.Length
    ensures forall p :: start <= p < end ==> s[p] == s[start]
    ensures end < s.Length ==> s[end] != s[start]
  {
    end := start + 1;
    while end < s.Length && s[end] == s[start]
      invariant start < end <= s.Length
      invariant forall p :: start <= p < end ==> s[p] == s[start]
    {
      end := end + 1;
    }
  }

  /** `encode`: run-length encoding; what lies beyond the runs keeps its value. */
  method Encode(s: array<nat>, unique: array<nat>, lengths: array<nat>) returns (runs: nat)
    requires unique.Length == lengths.Length == s.Length && s != unique && s != lengths && unique != lengths
    requires forall r :: 0 <= r < lengths.Length ==> lengths[r] == 0
    modifies unique, lengths
    ensures Encoded(s[..], unique[..], lengths[..], runs)
  {
    var start: nat := 0;
    runs := 0;
    while start < s.Length
      invariant runs <= start <= s.Length && Sum(lengths[..], runs) == start
      invariant forall r: nat :: r < runs ==> IsRun(s[..], unique[..], lengths[..], r)
      invariant forall r: nat :: runs <= r < lengths.Length ==> lengths[r] == 0
    {
      var end := RunEnd(s, start);
      ghost var before, before' := unique[..], lengths[..];
      unique[runs] := s[start];
      lengths[runs] := end - start;
      RunStored(s[..], before, before', unique[..], lengths[..], runs, end);
      start, runs := end, runs + 1;
    }
  }

  // ---- Marking and numbering ----

  /** Position p is the last one of run r. */
  predicate IsEnd(lengths: seq<nat>, r: nat, p: nat)
  {
    r < |lengths| && lengths[r] > 0 && p + 1 == Sum(lengths, r + 1)
  }

  ghost predicate Marked(lengths: seq<nat>, marks: seq<nat>, g: nat)
  {
    forall p: nat :: p < |marks| ==> marks[p] == if exists r: nat :: r < g && IsEnd(lengths, r, p) then 1 else 0
  }

  /** `mark_ends_of_runs`. */
  method MarkEnds(lengths: array<nat>, offsets: array<nat>, marks: array<nat>)
    requires lengths.Length == offsets.Length && marks != lengths && marks != offsets
    requires forall r :: 0 <= r < offsets.Length ==> offsets[r] == Sum(lengths[..], r)
    requires Sum(lengths[..], lengths.Length) <= marks.Length
    requires forall p :: 0 <= p < marks.Length ==> marks[p] == 0
    modifies marks
    ensures Marked(lengths[..], marks[..], lengths.Length)
  {
    for g: nat := 0 to lengths.Length
      invariant Marked(lengths[..], marks[..], g)
    {
      ghost var before := marks[..];
      SumMonotone(lengths[..], g + 1, lengths.Length);
      if lengths[g] != 0 {
        marks[offsets[g] + lengths[g] - 1] := 1;
        assert IsEnd(lengths[..], g, offsets[g] + lengths[g] - 1);
      }
      OneMoreMarked(lengths[..], before, marks[..], g);
    }
  }

  lemma OneMoreMarked(lengths: seq<nat>, before: seq<nat>, after: seq<nat>, g: nat)
    requires g < |lengths| && Marked(lengths, before, g) && |after| == |before|
    requires forall p: nat :: p < |after| ==> after[p] == if IsEnd(lengths, g, p) then 1 else before[p]
    ensures Marked(lengths, after, g + 1)
  {
    forall p: nat | p < |after|
      ensures after[p] == if exists r: nat :: r < g + 1 && IsEnd(lengths, r, p) then 1 else 0
    {
      if r: nat :| r < g + 1 && IsEnd(lengths, r, p) {
        assert r == g || (r < g && IsEnd(lengths, r, p));
      }
    }
  }

  /** Within a run only the last position is an end. */
  lemma EndOfRun(lengths: seq<nat>, runs: nat, r: nat, p: nat, q: nat)
    requires r < runs <= |lengths| && Sum(lengths, r) <= p < Sum(lengths, r + 1) && q < |lengths|
    ensures IsEnd(lengths, q, p) ==> p + 1 == Sum(lengths, r + 1)
  {
    if q < r {
      SumMonotone(lengths, q + 1, r);
    } else {
      SumMonotone(lengths, r + 1, q + 1);
    }
  }

  /** The scan over the marks numbers the runs: at every position it gives the run that the position lies in. */
  lemma {:induction false} ScanNumbersRuns(s: seq<nat>, unique: seq<nat>, lengths: seq<nat>, runs: nat, marks: seq<nat>,
                                           p: nat)
    requires Encoded(s, unique, lengths, runs) && |marks| == |s| && Marked(lengths, marks, |lengths|) && p < |s|
    ensures var r := Sum(marks, p); r < runs && Sum(lengths, r) <= p < Sum(lengths, r) + lengths[r]
  {
    if p == 0 {
      assert runs > 0;
      assert IsRun(s, unique, lengths, 0);
    } else {
      ScanNumbersRuns(s, unique, lengths, runs, marks, p - 1);
      var r := Sum(marks, p - 1);
      if p == Sum(lengths, r + 1) {
        assert IsEnd(lengths, r, p - 1);
        assert r + 1 < runs;
        assert IsRun(s, unique, lengths, r + 1);
      } else {
        var last: nat := p - 1;
        forall q: nat | q < |lengths|
          ensures !IsEnd(lengths, q, last)
        {
          EndOfRun(lengths, runs, r, last, q);
        }
      }
    }
  }
}
