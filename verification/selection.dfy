/**
 * `findEarliestSeqWithMost`: rank one country's dates by how many partners
 * can attend, keep the best `days * 2` of them, find the runs among those,
 * and report the first date of the first run with its attendees.
 */
module Selection {
  import opened Types
  import opened Ordering
  import opened Dates
  import opened Sequences
  import opened Grouping

  /** The number of attendees listed under `k`. */
  function Size(d: AttendeesByDate, k: string): nat
  {
    if k in d.entries then |d.entries[k]| else 0
  }

  predicate Descending(d: AttendeesByDate, s: seq<string>)
  {
    forall i, j :: 0 <= i < j < |s| ==> Size(d, s[i]) >= Size(d, s[j])
  }

  /** The keys of `s` whose list has exactly `n` attendees, in the order of `s`. */
  function WithSize(d: AttendeesByDate, s: seq<string>, n: nat): seq<string>
  {
    if s == [] then [] else (if Size(d, s[0]) == n then [s[0]] else []) + WithSize(d, s[1..], n)
  }

  /** Put `k` in front of the first key of `s` whose list is not longer. */
  function InsertBySize(d: AttendeesByDate, k: string, s: seq<string>): (r: seq<string>)
    ensures multiset(r) == multiset(s) + multiset{k} && |r| == |s| + 1
  {
    if s == [] || Size(d, k) >= Size(d, s[0]) then [k] + s
    else
      assert s == [s[0]] + s[1..];
      [s[0]] + InsertBySize(d, k, s[1..])
  }

  /**
   * The keys sorted with the comparator `dates[b].length - dates[a].length`:
   * longest list first. The platform sort is stable, so keys with lists of
   * the same length keep their insertion order.
   */
  function Rank(d: AttendeesByDate, keys: seq<string>): (r: seq<string>)
    ensures multiset(r) == multiset(keys) && |r| == |keys|
  {
    if keys == [] then []
    else
      assert keys == [keys[0]] + keys[1..];
      InsertBySize(d, keys[0], Rank(d, keys[1..]))
  }

  lemma {:induction false} InsertBySizeDescending(d: AttendeesByDate, k: string, s: seq<string>)
    requires Descending(d, s)
    ensures Descending(d, InsertBySize(d, k, s))
  {
    if s != [] && Size(d, k) < Size(d, s[0]) {
      InsertBySizeDescending(d, k, s[1..]);
      var t := InsertBySize(d, k, s[1..]);
      forall j | 0 <= j < |t|
        ensures Size(d, s[0]) >= Size(d, t[j])
      {
        assert t[j] in multiset(s[1..]) + multiset{k};
        if t[j] != k {
          var m :| 0 <= m < |s[1..]| && s[1..][m] == t[j];
          assert s[1 + m] == t[j];
        }
      }
      ConsDescending(d, s[0], t);
    }
  }

  /** A key whose list is at least as long as every list of a ranked `t` can go in front. */
  lemma ConsDescending(d: AttendeesByDate, x: string, t: seq<string>)
    requires Descending(d, t)
    requires forall j :: 0 <= j < |t| ==> Size(d, x) >= Size(d, t[j])
    ensures Descending(d, [x] + t)
  {
    var r := [x] + t;
    forall i, j | 0 <= i < j < |r|
      ensures Size(d, r[i]) >= Size(d, r[j])
    {
      assert r[j] == t[j - 1];
      if i > 0 {
        assert r[i] == t[i - 1];
      }
    }
  }

  /** Every list is at least as long as every list ranked after it. */
  lemma {:induction false} RankDescending(d: AttendeesByDate, keys: seq<string>)
    ensures Descending(d, Rank(d, keys))
  {
    if keys != [] {
      RankDescending(d, keys[1..]);
      InsertBySizeDescending(d, keys[0], Rank(d, keys[1..]));
    }
  }

  lemma {:induction false} InsertBySizeWithSize(d: AttendeesByDate, k: string, s: seq<string>, n: nat)
    requires Descending(d, s)
    ensures WithSize(d, InsertBySize(d, k, s), n) == (if Size(d, k) == n then [k] else []) + WithSize(d, s, n)
  {
    if s == [] || Size(d, k) >= Size(d, s[0]) {
      assert ([k] + s)[1..] == s;
    } else {
      assert Descending(d, s[1..]) by {
        forall i, j | 0 <= i < j < |s[1..]|
          ensures Size(d, s[1..][i]) >= Size(d, s[1..][j])
        {
          assert s[1..][i] == s[i + 1] && s[1..][j] == s[j + 1];
        }
      }
      InsertBySizeWithSize(d, k, s[1..], n);
      var r := InsertBySize(d, k, s);
      assert r[0] == s[0] && r[1..] == InsertBySize(d, k, s[1..]);
    }
  }

  /**
   * The ranking is stable: for every attendee count, the keys with that
   * count appear in the ranking in the same order as in `keys`.
   */
  lemma {:induction false} RankStable(d: AttendeesByDate, keys: seq<string>, n: nat)
    ensures WithSize(d, Rank(d, keys), n) == WithSize(d, keys, n)
  {
    if keys != [] {
      RankStable(d, keys[1..], n);
      RankDescending(d, keys[1..]);
      InsertBySizeWithSize(d, keys[0], Rank(d, keys[1..]), n);
    }
  }

  /** Keys already ranked by size stay where they are. */
  lemma {:induction false} RankKeepsDescending(d: AttendeesByDate, keys: seq<string>)
    requires Descending(d, keys)
    ensures Rank(d, keys) == keys
  {
    if keys != [] {
      assert Descending(d, keys[1..]) by {
        forall i, j | 0 <= i < j < |keys[1..]|
          ensures Size(d, keys[1..][i]) >= Size(d, keys[1..][j])
        {
          assert keys[1..][i] == keys[i + 1] && keys[1..][j] == keys[j + 1];
        }
      }
      RankKeepsDescending(d, keys[1..]);
      assert keys == [keys[0]] + keys[1..];
    }
  }

  /** `sortedBySize.slice(0, days * 2)`. */
  function Candidates(d: AttendeesByDate, days: nat): (r: seq<string>)
    ensures |r| <= 2 * days && |r| <= |d.keys|
    ensures |r| == if 2 * days <= |d.keys| then 2 * days else |d.keys|
  {
    var ranked := Rank(d, d.keys);
    ranked[..if 2 * days <= |ranked| then 2 * days else |ranked|]
  }

  /** The candidates in the order `findSequences` walks them. */
  function Walked(d: AttendeesByDate, days: nat): (arr: seq<string>)
    ensures multiset(arr) == multiset(Candidates(d, days))
  {
    SortStrings(Candidates(d, days))
  }

  lemma CandidatesAreKeys(d: AttendeesByDate, days: nat)
    ensures forall s :: s in Candidates(d, days) ==> s in d.keys
  {
    var ranked := Rank(d, d.keys);
    forall s | s in Candidates(d, days)
      ensures s in d.keys
    {
      assert s in ranked;
      assert s in multiset(ranked);
    }
  }

  lemma WalkedAreKeys(d: AttendeesByDate, days: nat, i: nat)
    requires i < |Walked(d, days)|
    ensures Walked(d, days)[i] in Candidates(d, days) && Walked(d, days)[i] in d.keys
  {
    var s := Walked(d, days)[i];
    assert s in multiset(Walked(d, days));
    CandidatesAreKeys(d, days);
  }

  /** Reading `seq[0][0]` when `findSequences` found no run throws a `TypeError`. */
  datatype Error = NoSequence

  /** The pair `[mostAttendedDay, mostAttended]`; `None` stands for `null`. */
  datatype Choice = Choice(startDate: Option<string>, attendees: seq<string>)

  /**
   * What `findEarliestSeqWithMost(d, days)` returns, read off the break
   * flags of the walked candidates: the first run starts at
   * `RunStart(FirstJoin(..))`; an empty first date is falsy and gives
   * `[null, []]`.
   */
  function Select(d: AttendeesByDate, days: nat): Result<Choice, Error>
    requires d.Valid()
  {
    var arr := Walked(d, days);
    var j := FirstJoin(Breaks(arr, 1));
    if j == |arr| then Failure(NoSequence)
    else
      var s := arr[RunStart(j)];
      WalkedAreKeys(d, days, RunStart(j));
      if s == "" then Success(Choice(None, [])) else Success(Choice(Some(s), d.entries[s]))
  }

  /**
   * A reported start date is a non-empty candidate key, reported with its
   * own attendee list; a `null` start date comes with no attendees and only
   * when the empty string is a candidate.
   */
  lemma SelectChoice(d: AttendeesByDate, days: nat)
    requires d.Valid()
    ensures var r := Select(d, days);
      (r.Success? && r.value.startDate.Some? ==>
        var s := r.value.startDate.value;
        s != "" && s in Candidates(d, days) && s in d.entries && r.value.attendees == d.entries[s]) &&
      (r.Success? && r.value.startDate.None? ==> r.value.attendees == [] && "" in Candidates(d, days))
  {
    var arr := Walked(d, days);
    var j := FirstJoin(Breaks(arr, 1));
    if j < |arr| {
      WalkedAreKeys(d, days, RunStart(j));
    }
  }

  /**
   * The method form: rank, slice, call `findSequences` with its default of
   * one day, and read the first date of the first run.
   */
  method FindEarliestSeqWithMost(d: AttendeesByDate, days: nat) returns (r: Result<Choice, Error>)
    requires d.Valid()
    ensures r == Select(d, days)
  {
    var sortedBySize := Rank(d, d.keys);
    var n := if 2 * days <= |sortedBySize| then 2 * days else |sortedBySize|;
    var runs, at := FindSequences(sortedBySize[..n], 1);
    FirstRunSelects(d, days, runs, at);
    if runs == [] {
      return Failure(NoSequence);
    }
    var first := runs[0][0];
    if first != "" {
      r := Success(Choice(Some(first), d.entries[first]));
    } else {
      r := Success(Choice(None, []));
    }
  }

  /** What `findSequences` promises about its first run decides `Select`. */
  lemma FirstRunSelects(d: AttendeesByDate, days: nat, runs: seq<seq<string>>, at: seq<nat>)
    requires d.Valid()
    requires var arr := Walked(d, days); SlicesOf(arr, runs, at, |arr|)
    requires var brk := Breaks(Walked(d, days), 1); runs == [] <==> FirstJoin(brk) == |brk|
    requires var brk := Breaks(Walked(d, days), 1); var j := FirstJoin(brk);
      runs != [] ==> 1 <= j < |brk| && at[0] == RunStart(j)
    ensures runs == [] <==> Select(d, days).Failure?
    ensures runs != [] ==> (|runs[0]| >= 2 && runs[0][0] in d.entries &&
      Select(d, days) == Success(if runs[0][0] == "" then Choice(None, [])
                                 else Choice(Some(runs[0][0]), d.entries[runs[0][0]])))
  {
    if runs != [] {
      var arr := Walked(d, days);
      assert runs[0] == arr[at[0]..at[0] + |runs[0]|];
      WalkedAreKeys(d, days, at[0]);
    }
  }

  /**
   * The call fails exactly when every neighbouring pair of walked
   * candidates is a break, that is, when no two of them lie within one day.
   */
  lemma SelectFails(d: AttendeesByDate, days: nat)
    requires d.Valid()
    ensures var arr := Walked(d, days);
      Select(d, days).Failure? <==> forall i :: 1 <= i < |arr| ==> ExceedsGap(arr[i - 1], arr[i], MsPerDay)
  {
    var arr := Walked(d, days);
    var brk := Breaks(arr, 1);
    forall i | 1 <= i < |arr|
      ensures brk[i] <==> ExceedsGap(arr[i - 1], arr[i], MsPerDay)
    {
      BreakAt(arr, 1, i);
    }
    if forall i :: 1 <= i < |arr| ==> brk[i] {
      FirstJoinAllBreaks(brk, 1);
    }
  }

  /** With fewer than two dates (or a window of none) the call fails. */
  lemma FewDatesFail(d: AttendeesByDate, days: nat)
    requires d.Valid() && (|d.keys| < 2 || days == 0)
    ensures Select(d, days).Failure?
  {
    SelectFails(d, days);
  }

  /** When every date is a calendar date, a successful call never reports `null`. */
  lemma CalendarDatesGiveStart(d: AttendeesByDate, days: nat)
    requires d.Valid() && forall k :: k in d.entries ==> IsIsoDate(k)
    ensures Select(d, days).Success? ==> Select(d, days).value.startDate.Some?
  {
    SelectChoice(d, days);
    CandidatesAreKeys(d, days);
  }

  /**
   * The start date is the first walked date of the first run, and more
   * than one day lies between it and the next walked date exactly when the
   * first joined pair ends at position 3 or later: then the reported date
   * belongs to no sequence at all.
   */
  lemma StartOfFirstRun(d: AttendeesByDate, days: nat)
    requires d.Valid() && Select(d, days).Success?
    ensures var arr := Walked(d, days); var j := FirstJoin(Breaks(arr, 1));
      1 <= j < |arr| &&
      Select(d, days).value.startDate == (if arr[RunStart(j)] == "" then None else Some(arr[RunStart(j)])) &&
      (ExceedsGap(arr[RunStart(j)], arr[RunStart(j) + 1], MsPerDay) <==> j >= 3)
  {
    var arr := Walked(d, days);
    var brk := Breaks(arr, 1);
    FirstRunFirstPair(brk);
    BreakAt(arr, 1, RunStart(FirstJoin(brk)) + 1);
  }
}
