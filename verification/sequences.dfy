/**
 * `findSequences`: sort the date strings, then walk them with the `start`
 * and `end` cursors, collecting slices of at least two dates.
 *
 * The walk only looks at whether neighbouring dates are "joined" (the gap
 * test fails) or separated by a break, so its properties are stated over
 * the break flags of the sorted dates.
 */
module Sequences {
  import opened Ordering
  import opened Dates

  /**
   * `brk[i]`, for `1 <= i < |arr|`: the gap between `arr[i - 1]` and
   * `arr[i]` exceeds `days` days. Position 0 has no predecessor.
   */
  function Breaks(arr: seq<string>, days: nat): (brk: seq<bool>)
    ensures |brk| == |arr|
  {
    seq(|arr|, i requires 0 <= i < |arr| => 1 <= i && ExceedsGap(arr[i - 1], arr[i], MsPerDay * days))
  }

  lemma BreakAt(arr: seq<string>, days: nat, i: nat)
    requires 1 <= i < |arr|
    ensures Breaks(arr, days)[i] <==> ExceedsGap(arr[i - 1], arr[i], MsPerDay * days)
  {
  }

  /** The least `j >= from` at which the pair ending at `j` is joined, or `|brk|`. */
  function FirstJoinFrom(brk: seq<bool>, from: nat): (j: nat)
    requires 1 <= from
    ensures j <= |brk|
    ensures j < |brk| ==> from <= j && !brk[j]
    ensures forall i :: from <= i < j ==> brk[i]
    decreases |brk| - from
  {
    if from >= |brk| then |brk|
    else if !brk[from] then from
    else FirstJoinFrom(brk, from + 1)
  }

  /** The first position joined to its predecessor, or `|brk|` when every pair is a break. */
  function FirstJoin(brk: seq<bool>): nat
  {
    FirstJoinFrom(brk, 1)
  }

  /** When every pair from `from` on is a break, there is no join to find. */
  lemma {:induction false} FirstJoinAllBreaks(brk: seq<bool>, from: nat)
    requires 1 <= from && forall i :: from <= i < |brk| ==> brk[i]
    ensures FirstJoinFrom(brk, from) == |brk|
    decreases |brk| - from
  {
    if from < |brk| {
      FirstJoinAllBreaks(brk, from + 1);
    }
  }

  /** The least `b >= from` with a break at `b`, or `|brk|`. */
  function NextBreakFrom(brk: seq<bool>, from: nat): (b: nat)
    requires 1 <= from <= |brk|
    ensures from <= b <= |brk|
    ensures b < |brk| ==> brk[b]
    ensures forall i :: from <= i < b ==> !brk[i]
    decreases |brk| - from
  {
    if from == |brk| then |brk|
    else if brk[from] then from
    else NextBreakFrom(brk, from + 1)
  }

  /**
   * Where the first run starts when the first joined pair ends at `j`.
   * After two breaks in a row `start` lags one position behind, so for
   * `j >= 3` the run starts at `j - 2`, one date before the joined pair.
   */
  function RunStart(j: nat): nat
    requires 1 <= j
  {
    if j <= 2 then j - 1 else j - 2
  }

  /**
   * Where a later run starts when the run before it ends at the break `b`
   * and the next joined pair ends at `j > b`. Right after that push
   * `start` is `b`; each further break moves it to two positions behind
   * `idx`, so it stands at `j - 2` once `j - 2` passes `b`.
   */
  function NextRunStart(b: nat, j: nat): nat
  {
    if j - 2 > b then j - 2 else b
  }

  /**
   * The first run begins with a joined pair exactly when the first joined
   * pair ends at 1 or 2; from 3 on, its first pair is a break, so the run
   * starts with a date that is not part of any sequence.
   */
  lemma FirstRunFirstPair(brk: seq<bool>)
    requires 1 <= FirstJoin(brk) < |brk|
    ensures var j := FirstJoin(brk); brk[RunStart(j) + 1] <==> j >= 3
  {
  }

  /** Position `i` (the pair `i - 1`, `i`) lies inside one of the runs. */
  ghost predicate Covered(runs: seq<seq<string>>, at: seq<nat>, i: int)
  {
    exists k :: 0 <= k < |runs| && k < |at| && at[k] < i < at[k] + |runs[k]|
  }

  /** Run `k` is the slice of `arr` that starts at `at[k]`, has two dates or more and ends by `bound`. */
  ghost predicate SlicesOf(arr: seq<string>, runs: seq<seq<string>>, at: seq<nat>, bound: nat)
  {
    |at| == |runs| &&
    forall k :: 0 <= k < |runs| ==>
      2 <= |runs[k]| && at[k] + |runs[k]| <= bound && at[k] + |runs[k]| <= |arr| &&
      runs[k] == arr[at[k]..at[k] + |runs[k]|]
  }

  /** The runs come in order and do not overlap. */
  ghost predicate InOrder(runs: seq<seq<string>>, at: seq<nat>)
    requires |at| == |runs|
  {
    forall k :: 0 <= k < |runs| - 1 ==> at[k] + |runs[k]| <= at[k + 1]
  }

  /** Inside a run every pair but the first is joined. */
  ghost predicate JoinedAfterFirst(brk: seq<bool>, runs: seq<seq<string>>, at: seq<nat>)
    requires |at| == |runs|
  {
    forall k, i :: 0 <= k < |runs| && at[k] + 1 < i < at[k] + |runs[k]| && i < |brk| ==> !brk[i]
  }

  /** A run stops at a break or at the end of the dates. */
  ghost predicate EndAtBreaks(brk: seq<bool>, runs: seq<seq<string>>, at: seq<nat>)
    requires |at| == |runs|
  {
    forall k :: 0 <= k < |runs| && at[k] + |runs[k]| < |brk| ==> brk[at[k] + |runs[k]|]
  }

  /** Every joined pair lies inside a run. */
  ghost predicate AllJoinsCovered(brk: seq<bool>, runs: seq<seq<string>>, at: seq<nat>)
  {
    forall i :: 1 <= i < |brk| && !brk[i] ==> Covered(runs, at, i)
  }

  /**
   * Each run after the first is placed by the one before it: if run `k`
   * ends at `b` and the first joined pair after `b` ends at `j`, run
   * `k + 1` starts at `NextRunStart(b, j)` and ends at the next break.
   */
  ghost predicate Chained(brk: seq<bool>, runs: seq<seq<string>>, at: seq<nat>)
    requires |at| == |runs|
  {
    forall k :: 0 <= k < |runs| - 1 ==> LinkAt(brk, runs, at, k)
  }

  /** Run `k + 1` follows run `k` as `ChainLink` says. */
  ghost predicate LinkAt(brk: seq<bool>, runs: seq<seq<string>>, at: seq<nat>, k: nat)
    requires |at| == |runs| && k + 1 < |runs|
  {
    ChainLink(brk, at[k] + |runs[k]|, at[k + 1], at[k + 1] + |runs[k + 1]|)
  }

  /** The run after one that ends at `b` is the slice `lo..hi`. */
  ghost predicate ChainLink(brk: seq<bool>, b: nat, lo: nat, hi: nat)
  {
    var j := FirstJoinFrom(brk, b + 1);
    j < |brk| && lo == NextRunStart(b, j) && hi == NextBreakFrom(brk, j + 1)
  }

  /** No pair after the end of the last run is joined. */
  ghost predicate NoJoinAfter(brk: seq<bool>, runs: seq<seq<string>>, at: seq<nat>)
    requires |at| == |runs|
  {
    runs != [] ==> FirstJoinFrom(brk, at[|runs| - 1] + |runs[|runs| - 1]| + 1) == |brk|
  }

  // ---- the loop invariant of FindSequences, in parts ----

  ghost predicate Cursors(n: nat, idx: nat, start: nat, end: nat)
  {
    1 <= idx && (idx <= n || idx == 1) && start <= end <= idx && idx - 1 <= end && start < idx
  }

  /** What the cursors say about the pairs before `idx`. */
  ghost predicate Pending(brk: seq<bool>, idx: nat, start: nat, end: nat)
  {
    (end == idx ==> forall i :: start + 1 < i < idx && i < |brk| ==> !brk[i]) &&
    (end == idx - 1 ==> 2 <= idx <= |brk| && idx <= start + 2 && brk[idx - 1])
  }

  ghost predicate RunsSoFar(arr: seq<string>, brk: seq<bool>, idx: nat, start: nat, end: nat,
                            runs: seq<seq<string>>, at: seq<nat>)
  {
    SlicesOf(arr, runs, at, idx) && InOrder(runs, at) &&
    JoinedAfterFirst(brk, runs, at) && EndAtBreaks(brk, runs, at) &&
    EndsBy(runs, at, start, |arr|) &&
    (idx == |arr| && end == idx && idx - start >= 2 ==>
      runs != [] && at[|at| - 1] == start && at[|at| - 1] + |runs[|runs| - 1]| == |arr|)
  }

  /** Every run ends by `start` or at `n`, the end of the dates. */
  ghost predicate EndsBy(runs: seq<seq<string>>, at: seq<nat>, start: nat, n: nat)
    requires |at| == |runs|
  {
    forall k :: 0 <= k < |runs| ==> at[k] + |runs[k]| <= start || at[k] + |runs[k]| == n
  }

  /** Every run ends by `lo`. */
  ghost predicate EndBefore(runs: seq<seq<string>>, at: seq<nat>, lo: nat)
    requires |at| == |runs|
  {
    forall k :: 0 <= k < |runs| ==> at[k] + |runs[k]| <= lo
  }

  lemma EndsByPush(runs: seq<seq<string>>, at: seq<nat>, s: seq<string>, lo: nat, start: nat, n: nat)
    requires |at| == |runs| && EndBefore(runs, at, lo) && lo <= start
    requires lo + |s| <= start || lo + |s| == n
    ensures EndsBy(runs + [s], at + [lo], start, n)
  {
    var runs', at' := runs + [s], at + [lo];
    forall k | 0 <= k < |runs'| ensures at'[k] + |runs'[k]| <= start || at'[k] + |runs'[k]| == n {
      if k < |runs| {
        assert runs'[k] == runs[k] && at'[k] == at[k];
      }
    }
  }

  ghost predicate CoveredSoFar(brk: seq<bool>, idx: nat, start: nat, end: nat, runs: seq<seq<string>>, at: seq<nat>)
  {
    forall i :: 1 <= i < idx && i < |brk| && !brk[i] ==> Covered(runs, at, i) || (end == idx && start < i)
  }

  ghost predicate FirstRunSoFar(brk: seq<bool>, idx: nat, start: nat, end: nat, runs: seq<seq<string>>, at: seq<nat>)
    requires |at| == |runs|
  {
    var j, n := FirstJoin(brk), |brk|;
    ((j >= idx || j == n) <==> runs == [] && !(end == idx && idx - start >= 2)) &&
    ((j >= idx || j == n) ==> 1 <= idx && start == RunStart(idx) && end == (if idx == 1 then 1 else idx - 1)) &&
    (j < idx && j < n && runs == [] ==>
      1 <= j && end == idx && start == RunStart(j) && NextBreakFrom(brk, j + 1) >= idx) &&
    (runs != [] ==>
      1 <= j < n && at[0] == RunStart(j) && at[0] + |runs[0]| == NextBreakFrom(brk, j + 1))
  }

  /**
   * The cursors after the last run pushed, which ends at `b`: either it
   * reached the last date, or no pair after `b` is joined yet and `start`
   * trails two behind `idx`, or the first joined pair after `b` ends at
   * `j` and the pending slice reaches from `NextRunStart(b, j)` to `idx`.
   */
  ghost predicate LaterRunsSoFar(brk: seq<bool>, idx: nat, start: nat, end: nat, runs: seq<seq<string>>, at: seq<nat>)
    requires |at| == |runs|
  {
    Chained(brk, runs, at) &&
    (runs != [] ==>
      var b := at[|runs| - 1] + |runs[|runs| - 1]|;
      (b == idx == |brk|) ||
      (b < idx && var j := FirstJoinFrom(brk, b + 1);
        (j >= idx ==> start == NextRunStart(b, idx) && end == idx - 1) &&
        (j < idx ==> j < |brk| && start == NextRunStart(b, j) && end == idx && NextBreakFrom(brk, j + 1) >= idx)))
  }

  /** `runs` after pushing `s` when `push` holds. */
  function PushIf<T>(push: bool, runs: seq<T>, s: T): seq<T>
  {
    if push then runs + [s] else runs
  }

  /** Appending the slice `lo..hi` keeps the run properties. */
  lemma AppendRun(arr: seq<string>, brk: seq<bool>, runs: seq<seq<string>>, at: seq<nat>, lo: nat, hi: nat, bound: nat)
    requires SlicesOf(arr, runs, at, bound) && InOrder(runs, at)
    requires JoinedAfterFirst(brk, runs, at) && EndAtBreaks(brk, runs, at)
    requires lo + 2 <= hi <= bound && hi <= |arr| && |brk| == |arr|
    requires EndBefore(runs, at, lo)
    requires forall i :: lo + 1 < i < hi ==> !brk[i]
    requires hi < |brk| ==> brk[hi]
    ensures var runs', at' := runs + [arr[lo..hi]], at + [lo];
      SlicesOf(arr, runs', at', bound) && InOrder(runs', at') &&
      JoinedAfterFirst(brk, runs', at') && EndAtBreaks(brk, runs', at')
  {
    AppendSlice(arr, runs, at, lo, hi, bound);
    AppendInOrder(runs, at, arr[lo..hi], lo);
    AppendBreaks(brk, runs, at, arr[lo..hi], lo);
  }

  lemma AppendInOrder(runs: seq<seq<string>>, at: seq<nat>, s: seq<string>, lo: nat)
    requires |at| == |runs| && InOrder(runs, at)
    requires EndBefore(runs, at, lo)
    ensures InOrder(runs + [s], at + [lo])
  {
    var runs', at' := runs + [s], at + [lo];
    forall k | 0 <= k < |runs'| - 1 ensures at'[k] + |runs'[k]| <= at'[k + 1] {
      assert runs'[k] == runs[k] && at'[k] == at[k];
    }
  }

  lemma AppendBreaks(brk: seq<bool>, runs: seq<seq<string>>, at: seq<nat>, s: seq<string>, lo: nat)
    requires |at| == |runs| && JoinedAfterFirst(brk, runs, at) && EndAtBreaks(brk, runs, at)
    requires forall i :: lo + 1 < i < lo + |s| && i < |brk| ==> !brk[i]
    requires lo + |s| < |brk| ==> brk[lo + |s|]
    ensures JoinedAfterFirst(brk, runs + [s], at + [lo]) && EndAtBreaks(brk, runs + [s], at + [lo])
  {
    var runs', at' := runs + [s], at + [lo];
    forall k, i | 0 <= k < |runs'| && at'[k] + 1 < i < at'[k] + |runs'[k]| && i < |brk| ensures !brk[i] {
      if k < |runs| {
        assert runs'[k] == runs[k] && at'[k] == at[k];
      }
    }
    forall k | 0 <= k < |runs'| && at'[k] + |runs'[k]| < |brk| ensures brk[at'[k] + |runs'[k]|] {
      if k < |runs| {
        assert runs'[k] == runs[k] && at'[k] == at[k];
      }
    }
  }

  lemma AppendSlice(arr: seq<string>, runs: seq<seq<string>>, at: seq<nat>, lo: nat, hi: nat, bound: nat)
    requires SlicesOf(arr, runs, at, bound)
    requires lo + 2 <= hi <= bound && hi <= |arr|
    ensures SlicesOf(arr, runs + [arr[lo..hi]], at + [lo], bound)
  {
    var runs', at' := runs + [arr[lo..hi]], at + [lo];
    forall k | 0 <= k < |runs'|
      ensures 2 <= |runs'[k]| && at'[k] + |runs'[k]| <= bound && at'[k] + |runs'[k]| <= |arr|
      ensures runs'[k] == arr[at'[k]..at'[k] + |runs'[k]|]
    {
      if k < |runs| {
        assert runs'[k] == runs[k] && at'[k] == at[k];
      }
    }
  }

  lemma WidenSlices(arr: seq<string>, runs: seq<seq<string>>, at: seq<nat>, bound: nat, bound': nat)
    requires SlicesOf(arr, runs, at, bound) && bound <= bound'
    ensures SlicesOf(arr, runs, at, bound')
  {
  }

  lemma BreakStepRuns(arr: seq<string>, brk: seq<bool>, idx: nat, start: nat, end: nat, runs: seq<seq<string>>, at: seq<nat>)
    requires |brk| == |arr| && Cursors(|arr|, idx, start, end) && idx < |arr| && brk[idx]
    requires Pending(brk, idx, start, end) && RunsSoFar(arr, brk, idx, start, end, runs, at)
    ensures var push := end - start > 1;
      var runs', at' := PushIf(push, runs, arr[start..end]), PushIf(push, at, start);
      Pending(brk, idx + 1, end, idx) && RunsSoFar(arr, brk, idx + 1, end, idx, runs', at')
  {
    if end - start > 1 {
      PushAtBreak(arr, brk, idx, start, end, runs, at);
    } else {
      WidenSlices(arr, runs, at, idx, idx + 1);
    }
  }

  /** At a break, the pending slice of two dates or more becomes a run. */
  lemma PushAtBreak(arr: seq<string>, brk: seq<bool>, idx: nat, start: nat, end: nat, runs: seq<seq<string>>, at: seq<nat>)
    requires |brk| == |arr| && Cursors(|arr|, idx, start, end) && idx < |arr| && brk[idx] && end - start > 1
    requires Pending(brk, idx, start, end) && RunsSoFar(arr, brk, idx, start, end, runs, at)
    ensures RunsSoFar(arr, brk, idx + 1, end, idx, runs + [arr[start..end]], at + [start])
  {
    WidenSlices(arr, runs, at, idx, idx + 1);
    AppendRun(arr, brk, runs, at, start, end, idx + 1);
    EndsByPush(runs, at, arr[start..end], start, end, |arr|);
  }

  lemma JoinStepRuns(arr: seq<string>, brk: seq<bool>, idx: nat, start: nat, end: nat, runs: seq<seq<string>>, at: seq<nat>)
    requires |brk| == |arr| && Cursors(|arr|, idx, start, end) && idx < |arr| && !brk[idx]
    requires Pending(brk, idx, start, end) && RunsSoFar(arr, brk, idx, start, end, runs, at)
    ensures var push := idx + 1 - start > 1 && idx + 1 >= |arr|;
      var runs', at' := PushIf(push, runs, arr[start..idx + 1]), PushIf(push, at, start);
      Pending(brk, idx + 1, start, idx + 1) && RunsSoFar(arr, brk, idx + 1, start, idx + 1, runs', at')
  {
    assert Pending(brk, idx + 1, start, idx + 1);
    WidenSlices(arr, runs, at, idx, idx + 1);
    if idx + 1 - start > 1 && idx + 1 >= |arr| {
      PushLast(arr, brk, idx, start, runs, at);
    }
  }

  /** Pushing the slice that reaches the last date. */
  lemma PushLast(arr: seq<string>, brk: seq<bool>, idx: nat, start: nat, runs: seq<seq<string>>, at: seq<nat>)
    requires |brk| == |arr| && idx + 1 == |arr| && start + 2 <= idx + 1
    requires forall i :: start + 1 < i < idx + 1 ==> !brk[i]
    requires SlicesOf(arr, runs, at, idx + 1) && InOrder(runs, at)
    requires JoinedAfterFirst(brk, runs, at) && EndAtBreaks(brk, runs, at)
    requires EndBefore(runs, at, start)
    ensures RunsSoFar(arr, brk, idx + 1, start, idx + 1, runs + [arr[start..idx + 1]], at + [start]) == true
  {
    AppendRun(arr, brk, runs, at, start, idx + 1, idx + 1);
    EndsByPush(runs, at, arr[start..idx + 1], start, start, |arr|);
    PushedLast(runs, at, arr[start..idx + 1], start, |arr|);
  }

  /** After a push the last run is the one pushed. */
  lemma PushedLast(runs: seq<seq<string>>, at: seq<nat>, s: seq<string>, lo: nat, n: nat)
    requires |at| == |runs| && lo + |s| == n
    ensures var runs', at' := runs + [s], at + [lo];
      runs' != [] && at'[|at'| - 1] == lo && at'[|at'| - 1] + |runs'[|runs'| - 1]| == n
  {
  }

  lemma BreakStepCovered(arr: seq<string>, brk: seq<bool>, idx: nat, start: nat, end: nat, runs: seq<seq<string>>, at: seq<nat>)
    requires |brk| == |arr| && Cursors(|arr|, idx, start, end) && idx < |arr| && brk[idx]
    requires |at| == |runs| && CoveredSoFar(brk, idx, start, end, runs, at)
    ensures var push := end - start > 1;
      var runs', at' := PushIf(push, runs, arr[start..end]), PushIf(push, at, start);
      CoveredSoFar(brk, idx + 1, end, idx, runs', at')
  {
    var push := end - start > 1;
    var runs', at' := PushIf(push, runs, arr[start..end]), PushIf(push, at, start);
    forall i | 1 <= i < idx + 1 && i < |brk| && !brk[i]
      ensures Covered(runs', at', i)
    {
      if Covered(runs, at, i) {
        var k :| 0 <= k < |runs| && k < |at| && at[k] < i < at[k] + |runs[k]|;
        assert runs'[k] == runs[k] && at'[k] == at[k];
      } else {
        assert runs'[|runs|] == arr[start..end] && at'[|runs|] == start;
      }
    }
  }

  lemma JoinStepCovered(arr: seq<string>, brk: seq<bool>, idx: nat, start: nat, end: nat, runs: seq<seq<string>>, at: seq<nat>)
    requires |brk| == |arr| && Cursors(|arr|, idx, start, end) && idx < |arr| && !brk[idx]
    requires |at| == |runs| && CoveredSoFar(brk, idx, start, end, runs, at)
    ensures var push := idx + 1 - start > 1 && idx + 1 >= |arr|;
      var runs', at' := PushIf(push, runs, arr[start..idx + 1]), PushIf(push, at, start);
      CoveredSoFar(brk, idx + 1, start, idx + 1, runs', at')
  {
    var push := idx + 1 - start > 1 && idx + 1 >= |arr|;
    var runs', at' := PushIf(push, runs, arr[start..idx + 1]), PushIf(push, at, start);
    forall i | 1 <= i < idx + 1 && i < |brk| && !brk[i] && Covered(runs, at, i)
      ensures Covered(runs', at', i)
    {
      var k :| 0 <= k < |runs| && k < |at| && at[k] < i < at[k] + |runs[k]|;
      assert runs'[k] == runs[k] && at'[k] == at[k];
    }
  }

  lemma BreakStepFirst(brk: seq<bool>, idx: nat, start: nat, end: nat, runs: seq<seq<string>>, at: seq<nat>, s: seq<string>)
    requires Cursors(|brk|, idx, start, end) && idx < |brk| && brk[idx]
    requires |at| == |runs| && FirstRunSoFar(brk, idx, start, end, runs, at) && |s| == end - start
    ensures var push := end - start > 1;
      FirstRunSoFar(brk, idx + 1, end, idx, PushIf(push, runs, s), PushIf(push, at, start))
  {
  }

  lemma JoinStepFirst(brk: seq<bool>, idx: nat, start: nat, end: nat, runs: seq<seq<string>>, at: seq<nat>, s: seq<string>)
    requires Cursors(|brk|, idx, start, end) && idx < |brk| && !brk[idx]
    requires |at| == |runs| && FirstRunSoFar(brk, idx, start, end, runs, at) && |s| == idx + 1 - start
    ensures var push := idx + 1 - start > 1 && idx + 1 >= |brk|;
      FirstRunSoFar(brk, idx + 1, start, idx + 1, PushIf(push, runs, s), PushIf(push, at, start))
  {
  }

  lemma BreakStepLater(brk: seq<bool>, idx: nat, start: nat, end: nat, runs: seq<seq<string>>, at: seq<nat>, s: seq<string>)
    requires Cursors(|brk|, idx, start, end) && idx < |brk| && brk[idx] && Pending(brk, idx, start, end)
    requires |at| == |runs| && LaterRunsSoFar(brk, idx, start, end, runs, at) && |s| == end - start
    ensures var push := end - start > 1;
      LaterRunsSoFar(brk, idx + 1, end, idx, PushIf(push, runs, s), PushIf(push, at, start))
  {
    var push := end - start > 1;
    var runs', at' := PushIf(push, runs, s), PushIf(push, at, start);
    if push {
      ChainPush(brk, runs, at, s, start);
    }
  }

  lemma JoinStepLater(brk: seq<bool>, idx: nat, start: nat, end: nat, runs: seq<seq<string>>, at: seq<nat>, s: seq<string>)
    requires Cursors(|brk|, idx, start, end) && idx < |brk| && !brk[idx]
    requires |at| == |runs| && LaterRunsSoFar(brk, idx, start, end, runs, at) && |s| == idx + 1 - start
    ensures var push := idx + 1 - start > 1 && idx + 1 >= |brk|;
      LaterRunsSoFar(brk, idx + 1, start, idx + 1, PushIf(push, runs, s), PushIf(push, at, start))
  {
    var push := idx + 1 - start > 1 && idx + 1 >= |brk|;
    if push {
      ChainPush(brk, runs, at, s, start);
    }
  }

  /** Pushing a run placed after the last one by `Chained` keeps the runs chained. */
  lemma ChainPush(brk: seq<bool>, runs: seq<seq<string>>, at: seq<nat>, s: seq<string>, lo: nat)
    requires |at| == |runs| && Chained(brk, runs, at)
    requires runs != [] ==> ChainLink(brk, at[|runs| - 1] + |runs[|runs| - 1]|, lo, lo + |s|)
    ensures Chained(brk, runs + [s], at + [lo])
  {
    var runs', at' := runs + [s], at + [lo];
    forall k | 0 <= k < |runs'| - 1
      ensures LinkAt(brk, runs', at', k)
    {
      assert runs'[k] == runs[k] && at'[k] == at[k];
      if k + 1 < |runs| {
        assert LinkAt(brk, runs, at, k);
        assert runs'[k + 1] == runs[k + 1] && at'[k + 1] == at[k + 1];
      } else {
        assert runs'[k + 1] == s && at'[k + 1] == lo;
      }
    }
  }

  /**
   * The loop invariant of the walk. The step lemmas and the methods that
   * hand it from one date to the next state it as `LoopInv(...) == true`:
   * they pass it on as a whole, and only the part lemmas (`BreakStepRuns`,
   * `JoinStepFirst`, ...) look inside it.
   */
  ghost predicate LoopInv(arr: seq<string>, brk: seq<bool>, idx: nat, start: nat, end: nat,
                          runs: seq<seq<string>>, at: seq<nat>)
  {
    |brk| == |arr| && Cursors(|arr|, idx, start, end) && |at| == |runs| &&
    Pending(brk, idx, start, end) && RunsSoFar(arr, brk, idx, start, end, runs, at) &&
    CoveredSoFar(brk, idx, start, end, runs, at) && FirstRunSoFar(brk, idx, start, end, runs, at) &&
    LaterRunsSoFar(brk, idx, start, end, runs, at)
  }

  /** A break at `idx`: push the pending slice if it has two dates, then `start = end; end = idx`. */
  lemma BreakStep(arr: seq<string>, brk: seq<bool>, idx: nat, start: nat, end: nat,
                  runs: seq<seq<string>>, at: seq<nat>, s: seq<string>, push: bool)
    requires LoopInv(arr, brk, idx, start, end, runs, at) == true && idx < |arr| && brk[idx]
    requires s == arr[start..end] && push == (|s| > 1)
    ensures LoopInv(arr, brk, idx + 1, end, idx, PushIf(push, runs, s), PushIf(push, at, start)) == true
  {
    BreakStepRuns(arr, brk, idx, start, end, runs, at);
    BreakStepCovered(arr, brk, idx, start, end, runs, at);
    BreakStepFirst(brk, idx, start, end, runs, at, arr[start..end]);
    BreakStepLater(brk, idx, start, end, runs, at, arr[start..end]);
  }

  /** A joined pair at `idx`: `end = idx + 1`, and at the last date push the slice. */
  lemma JoinStep(arr: seq<string>, brk: seq<bool>, idx: nat, start: nat, end: nat,
                 runs: seq<seq<string>>, at: seq<nat>, s: seq<string>, push: bool)
    requires LoopInv(arr, brk, idx, start, end, runs, at) == true && idx < |arr| && !brk[idx]
    requires s == arr[start..idx + 1] && push == (|s| > 1 && idx + 1 >= |arr|)
    ensures LoopInv(arr, brk, idx + 1, start, idx + 1, PushIf(push, runs, s), PushIf(push, at, start)) == true
  {
    JoinStepRuns(arr, brk, idx, start, end, runs, at);
    JoinStepCovered(arr, brk, idx, start, end, runs, at);
    JoinStepFirst(brk, idx, start, end, runs, at, arr[start..idx + 1]);
    JoinStepLater(brk, idx, start, end, runs, at, arr[start..idx + 1]);
  }

  /** The cursors before the first visit: `start = 0`, `end = 1`, no runs. */
  lemma Start(arr: seq<string>, brk: seq<bool>)
    requires |brk| == |arr|
    ensures LoopInv(arr, brk, 1, 0, 1, [], []) == true
  {
  }

  /**
   * What findSequences returns for the sorted dates `arr` with break flags
   * `brk`: the slices, in order, each a maximal stretch of joined pairs
   * together with the date before its first pair, covering every joined
   * pair; no runs exactly when no pair is joined; the first run starts at
   * `RunStart` of the first joined pair, each later one is `Chained` to the
   * run before it, and no joined pair follows the last. `FoundUnique`
   * shows that this fixes the runs.
   */
  ghost predicate Found(arr: seq<string>, brk: seq<bool>, runs: seq<seq<string>>, at: seq<nat>)
  {
    SlicesOf(arr, runs, at, |arr|) && InOrder(runs, at) &&
    JoinedAfterFirst(brk, runs, at) && EndAtBreaks(brk, runs, at) && AllJoinsCovered(brk, runs, at) &&
    (runs == [] <==> FirstJoin(brk) == |brk|) &&
    (var j := FirstJoin(brk);
     runs != [] ==> 1 <= j < |brk| && at[0] == RunStart(j) && at[0] + |runs[0]| == NextBreakFrom(brk, j + 1)) &&
    Chained(brk, runs, at) && NoJoinAfter(brk, runs, at)
  }

  /** `Found` fixes the runs: any two results that meet it are equal. */
  lemma FoundUnique(arr: seq<string>, brk: seq<bool>, runs: seq<seq<string>>, at: seq<nat>,
                    runs': seq<seq<string>>, at': seq<nat>)
    requires Found(arr, brk, runs, at) && Found(arr, brk, runs', at')
    ensures runs == runs' && at == at'
  {
    LongestFound(arr, brk, runs, at, runs', at');
    LongestFound(arr, brk, runs', at', runs, at);
    forall k | 0 <= k < |runs|
      ensures runs[k] == runs'[k] && at[k] == at'[k]
    {
      SameRunAt(brk, runs, at, runs', at', k);
      assert runs[k] == arr[at[k]..at[k] + |runs[k]|];
      assert runs'[k] == arr[at'[k]..at'[k] + |runs'[k]|];
    }
  }

  /** Chained runs that agree on the first run agree on every run they both have. */
  lemma {:induction false} SameRunAt(brk: seq<bool>, runs: seq<seq<string>>, at: seq<nat>,
                                     runs': seq<seq<string>>, at': seq<nat>, k: nat)
    requires |at| == |runs| && |at'| == |runs'| && Chained(brk, runs, at) && Chained(brk, runs', at')
    requires k < |runs| && k < |runs'| && at[0] == at'[0] && |runs[0]| == |runs'[0]|
    ensures at[k] == at'[k] && |runs[k]| == |runs'[k]|
    decreases k
  {
    if k > 0 {
      SameRunAt(brk, runs, at, runs', at', k - 1);
      assert LinkAt(brk, runs, at, k - 1) && LinkAt(brk, runs', at', k - 1);
    }
  }

  /** A result that meets `Found` has no fewer runs than any other that does. */
  lemma LongestFound(arr: seq<string>, brk: seq<bool>, runs: seq<seq<string>>, at: seq<nat>,
                     runs': seq<seq<string>>, at': seq<nat>)
    requires Found(arr, brk, runs, at) && Found(arr, brk, runs', at')
    ensures |runs'| <= |runs|
  {
    if |runs| < |runs'| {
      if runs == [] {
        assert false;
      } else {
        var k := |runs| - 1;
        JoinAfterLink(brk, runs', at', k);
        SameRunAt(brk, runs, at, runs', at', k);
        assert false;
      }
    }
  }

  /** A run followed by another has a joined pair after its end. */
  lemma JoinAfterLink(brk: seq<bool>, runs: seq<seq<string>>, at: seq<nat>, k: nat)
    requires |at| == |runs| && Chained(brk, runs, at) && k + 1 < |runs|
    ensures FirstJoinFrom(brk, at[k] + |runs[k]| + 1) < |brk|
  {
    assert LinkAt(brk, runs, at, k);
  }

  /** Fewer than two dates hold no pair, so no run is found. */
  lemma FewDatesNoRuns(arr: seq<string>, brk: seq<bool>, runs: seq<seq<string>>, at: seq<nat>)
    requires Found(arr, brk, runs, at) && |brk| == |arr| < 2
    ensures runs == []
  {
  }

  /**
   * Breaks before the second and third of four dates, and a joined last
   * pair (sorted days 1, 5, 10, 11): the one run found is the last three
   * dates, not the joined pair alone.
   */
  lemma LaggingRun(arr: seq<string>, runs: seq<seq<string>>, at: seq<nat>)
    requires |arr| == 4 && Found(arr, [false, true, true, false], runs, at)
    ensures runs == [arr[1..4]]
  {
    var brk := [false, true, true, false];
    assert FirstJoin(brk) == 3;
    assert NextBreakFrom(brk, 4) == 4;
    assert runs[0] == arr[1..4];
    if |runs| > 1 {
      NextRunAfter(runs, at, 0);
      assert false;
    }
  }

  /**
   * The lag after a later run too (sorted days 1, 2, 5, 10, 11): after the
   * run of the first two dates, the second run starts at the third date,
   * which is a break away from the joined last pair.
   */
  lemma LaggingSecondRun(arr: seq<string>, runs: seq<seq<string>>, at: seq<nat>)
    requires |arr| == 5 && Found(arr, [false, false, true, true, false], runs, at)
    ensures runs == [arr[0..2], arr[2..5]]
  {
    var brk := [false, false, true, true, false];
    assert FirstJoin(brk) == 1 && NextBreakFrom(brk, 2) == 2;
    assert FirstJoinFrom(brk, 3) == 4 && NextBreakFrom(brk, 5) == 5;
    if |runs| == 1 {
      assert false;
    }
    assert LinkAt(brk, runs, at, 0);
    if |runs| > 2 {
      JoinAfterLink(brk, runs, at, 1);
      assert false;
    }
    assert runs[0] == arr[0..2] && runs[1] == arr[2..5];
  }

  lemma NextRunAfter(runs: seq<seq<string>>, at: seq<nat>, k: nat)
    requires |at| == |runs| && InOrder(runs, at) && k + 1 < |runs|
    ensures at[k] + |runs[k]| <= at[k + 1]
  {
  }

  /** What the invariant gives once every date has been visited. */
  lemma Finish(arr: seq<string>, brk: seq<bool>, idx: nat, start: nat, end: nat, runs: seq<seq<string>>, at: seq<nat>)
    requires LoopInv(arr, brk, idx, start, end, runs, at) == true && idx >= |arr|
    ensures Found(arr, brk, runs, at)
  {
    if |arr| > 0 {
      assert idx == |arr|;
    }
  }

  /**
   * One call of the reducer in findSequences for the date at `idx > 0`:
   * compare it with its predecessor and move the cursors.
   */
  method Visit(arr: seq<string>, ghost brk: seq<bool>, days: nat, dayGap: int, idx: nat, start: nat, end: nat,
               runs: seq<seq<string>>, ghost at: seq<nat>)
    returns (start': nat, end': nat, runs': seq<seq<string>>, ghost at': seq<nat>)
    requires dayGap == MsPerDay * days && brk == Breaks(arr, days)
    requires start <= end <= idx < |arr| && LoopInv(arr, brk, idx, start, end, runs, at) == true
    ensures LoopInv(arr, brk, idx + 1, start', end', runs', at') == true
  {
    BreakAt(arr, days, idx);
    if ExceedsGap(arr[idx - 1], arr[idx], dayGap) {
      start', end', runs', at' := CloseSlice(arr, brk, idx, start, end, runs, at);
    } else {
      start', end', runs', at' := ExtendSlice(arr, brk, idx, start, end, runs, at);
    }
  }

  /** Not a sequence: push the pending slice if it has two dates, then `start = end; end = idx`. */
  method CloseSlice(arr: seq<string>, ghost brk: seq<bool>, idx: nat, start: nat, end: nat,
                    runs: seq<seq<string>>, ghost at: seq<nat>)
    returns (start': nat, end': nat, runs': seq<seq<string>>, ghost at': seq<nat>)
    requires |brk| == |arr| && start <= end <= idx < |arr| && brk[idx] && LoopInv(arr, brk, idx, start, end, runs, at) == true
    ensures start' == end && end' == idx
    ensures runs' == PushIf(end - start > 1, runs, arr[start..end]) && at' == PushIf(end - start > 1, at, start)
    ensures LoopInv(arr, brk, idx + 1, start', end', runs', at') == true
  {
    var s := arr[start..end];
    var push := |s| > 1;
    runs', at' := PushIf(push, runs, s), PushIf(push, at, start);
    start', end' := end, idx;
    BreakStep(arr, brk, idx, start, end, runs, at, s, push);
  }

  /** A sequence: `end = idx + 1`, and at the last date push the slice if it has two dates. */
  method ExtendSlice(arr: seq<string>, ghost brk: seq<bool>, idx: nat, start: nat, end: nat,
                     runs: seq<seq<string>>, ghost at: seq<nat>)
    returns (start': nat, end': nat, runs': seq<seq<string>>, ghost at': seq<nat>)
    requires |brk| == |arr| && start <= idx < |arr| && !brk[idx] && LoopInv(arr, brk, idx, start, end, runs, at) == true
    ensures start' == start && end' == idx + 1
    ensures runs' == PushIf(idx + 1 - start > 1 && idx + 1 >= |arr|, runs, arr[start..idx + 1])
    ensures at' == PushIf(idx + 1 - start > 1 && idx + 1 >= |arr|, at, start)
    ensures LoopInv(arr, brk, idx + 1, start', end', runs', at') == true
  {
    var s := arr[start..idx + 1];
    var push := idx + 1 - start > 1 && idx + 1 >= |arr|;
    start', end' := start, idx + 1;
    runs', at' := PushIf(push, runs, s), PushIf(push, at, start);
    JoinStep(arr, brk, idx, start, end, runs, at, s, push);
  }

  /**
   * The runs found in `dates`; `at[k]` is where run `k` starts in the sorted
   * dates. A gap of more than `days` days between neighbours is a break.
   */
  method FindSequences(dates: seq<string>, days: nat) returns (runs: seq<seq<string>>, ghost at: seq<nat>)
    ensures Found(SortStrings(dates), Breaks(SortStrings(dates), days), runs, at)
  {
    var arr := SortStrings(dates);
    runs, at := ReduceSorted(arr, days);
  }

  /** The `reduce` of findSequences over the already sorted dates `arr`. */
  method ReduceSorted(arr: seq<string>, days: nat) returns (runs: seq<seq<string>>, ghost at: seq<nat>)
    ensures Found(arr, Breaks(arr, days), runs, at)
  {
    var dayGap := MsPerDay * days;
    var start: nat, end: nat := 0, 1;
    runs, at := [], [];
    var idx: nat := 1;
    ghost var brk := Breaks(arr, days);
    Start(arr, brk);
    while idx < |arr|
      invariant start <= end <= idx && LoopInv(arr, brk, idx, start, end, runs, at) == true
    {
      start, end, runs, at := Visit(arr, brk, days, dayGap, idx, start, end, runs, at);
      idx := idx + 1;
    }
    Finish(arr, brk, idx, start, end, runs, at);
  }
}
