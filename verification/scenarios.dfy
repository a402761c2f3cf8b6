/**
 * Worked examples of `findEarliestSeqWithMost` on one country's dates,
 * each stating the exact result of the selection.
 */
module Scenarios {
  import opened Types
  import opened Ordering
  import opened Dates
  import opened Sequences
  import opened Grouping
  import opened Selection

  /** Calendar dates in chronological order are already in string order. */
  lemma ChronologicalIsSorted(s: seq<string>)
    requires forall i :: 0 <= i < |s| ==> IsIsoDate(s[i])
    requires forall i, j :: 0 <= i < j < |s| ==> DayNumber(s[i]) <= DayNumber(s[j])
    ensures SortStrings(s) == s
  {
    forall i, j | 0 <= i < j < |s|
      ensures LexLe(s[i], s[j])
    {
      ChronologicalOrder(s[i], s[j]);
    }
    SortStringsSorted(s);
    SortedPermutationUnique(SortStrings(s), s);
  }

  /** A `YYYY-MM-DD` string with the given fields names that day of the calendar. */
  lemma CalendarDay(s: string, y: nat, m: nat, dd: nat)
    requires IsIsoShape(s)
    requires 1000 * Digit(s[0]) + 100 * Digit(s[1]) + 10 * Digit(s[2]) + Digit(s[3]) == y
    requires 10 * Digit(s[5]) + Digit(s[6]) == m && 10 * Digit(s[8]) + Digit(s[9]) == dd
    requires 1 <= m <= 12 && 1 <= dd <= DaysInMonth(y, m)
    ensures IsIsoDate(s) && DayNumber(s) == DaysBeforeYear(y) + DaysBeforeMonth(y, m) + dd - 1
  {
    IsoFields(s);
  }

  /** With the keys already ranked and no more of them than the window holds, all are candidates. */
  lemma AllCandidates(d: AttendeesByDate, days: nat)
    requires Descending(d, d.keys) && |d.keys| <= 2 * days
    ensures Candidates(d, days) == d.keys
  {
    RankKeepsDescending(d, d.keys);
    var ranked := Rank(d, d.keys);
    assert ranked[..|ranked|] == ranked;
  }

  /** The selection read off a known walk. */
  lemma SelectFromWalk(d: AttendeesByDate, days: nat, arr: seq<string>, j: nat)
    requires d.Valid() && Walked(d, days) == arr
    requires 1 <= j < |arr| && FirstJoin(Breaks(arr, 1)) == j && arr[RunStart(j)] != ""
    ensures arr[RunStart(j)] in d.entries
    ensures Select(d, days) == Success(Choice(Some(arr[RunStart(j)]), d.entries[arr[RunStart(j)]]))
  {
    WalkedAreKeys(d, days, RunStart(j));
  }

  /** Distinct keys make a valid table; sizes listed largest first are ranked. */
  lemma ThreeKeys(a: string, b: string, c: string, la: seq<string>, lb: seq<string>, lc: seq<string>)
    requires a != b && a != c && b != c
    requires |la| >= |lb| >= |lc|
    ensures var d := Dict([a, b, c], map[a := la, b := lb, c := lc]);
      d.Valid() && Descending(d, d.keys)
  {
  }

  lemma FourKeys(a: string, b: string, c: string, e: string,
                 la: seq<string>, lb: seq<string>, lc: seq<string>, le: seq<string>)
    requires a != b && a != c && a != e && b != c && b != e && c != e
    requires |la| >= |lb| >= |lc| >= |le|
    ensures var d := Dict([a, b, c, e], map[a := la, b := lb, c := lc, e := le]);
      d.Valid() && Descending(d, d.keys)
  {
    var d := Dict([a, b, c, e], map[a := la, b := lb, c := lc, e := le]);
    assert d.entries[a] == la && d.entries[b] == lb && d.entries[c] == lc && d.entries[e] == le;
    assert d.Valid();
  }

  lemma ThreeSorted(a: string, b: string, c: string)
    requires IsIsoDate(a) && IsIsoDate(b) && IsIsoDate(c)
    requires DayNumber(a) < DayNumber(b) < DayNumber(c)
    ensures SortStrings([a, b, c]) == [a, b, c]
  {
    ChronologicalIsSorted([a, b, c]);
  }

  /** The first pair of three dates is one day apart, so the first run starts at the first date. */
  lemma ThreeBreaks(a: string, b: string, c: string)
    requires IsIsoDate(a) && IsIsoDate(b) && DayNumber(b) == DayNumber(a) + 1
    ensures FirstJoin(Breaks([a, b, c], 1)) == 1
  {
    BreakAt([a, b, c], 1, 1);
    GapInDays(a, b, 1);
  }

  lemma FourSorted(a: string, b: string, c: string, e: string)
    requires IsIsoDate(a) && IsIsoDate(b) && IsIsoDate(c) && IsIsoDate(e)
    requires DayNumber(a) < DayNumber(b) < DayNumber(c) < DayNumber(e)
    ensures SortStrings([a, b, c, e]) == [a, b, c, e]
  {
    ChronologicalIsSorted([a, b, c, e]);
  }

  /** Among four dates only the last pair is one day apart. */
  lemma FourBreaks(a: string, b: string, c: string, e: string)
    requires IsIsoDate(a) && IsIsoDate(b) && IsIsoDate(c) && IsIsoDate(e)
    requires DayNumber(b) > DayNumber(a) + 1 && DayNumber(c) > DayNumber(b) + 1 && DayNumber(e) == DayNumber(c) + 1
    ensures FirstJoin(Breaks([a, b, c, e], 1)) == 3
    ensures ExceedsGap(b, c, MsPerDay)
  {
    var arr := [a, b, c, e];
    var brk := Breaks(arr, 1);
    BreakAt(arr, 1, 1);
    GapInDays(a, b, 1);
    BreakAt(arr, 1, 2);
    GapInDays(b, c, 1);
    BreakAt(arr, 1, 3);
    GapInDays(c, e, 1);
    assert FirstJoinFrom(brk, 3) == 3;
    assert FirstJoinFrom(brk, 2) == 3;
  }

  /**
   * Three dates, ranked by size as listed, where only the first two are
   * consecutive days: the first date is reported with its own list.
   */
  lemma PairThenGap(a: string, b: string, c: string, la: seq<string>, lb: seq<string>, lc: seq<string>)
    requires IsIsoDate(a) && IsIsoDate(b) && IsIsoDate(c)
    requires DayNumber(b) == DayNumber(a) + 1 && DayNumber(c) > DayNumber(b) + 1
    requires |la| >= |lb| >= |lc|
    ensures var d := Dict([a, b, c], map[a := la, b := lb, c := lc]);
      d.Valid() && Select(d, 2) == Success(Choice(Some(a), la))
  {
    ThreeSorted(a, b, c);
    ThreeBreaks(a, b, c);
    assert a != b && a != c && b != c && a != "";
    ThreeSelectFirst(a, b, c, la, lb, lc);
  }

  /** Three distinct ranked keys, already sorted, whose first pair is joined: the first key is chosen. */
  lemma ThreeSelectFirst(a: string, b: string, c: string, la: seq<string>, lb: seq<string>, lc: seq<string>)
    requires a != b && a != c && b != c && a != ""
    requires |la| >= |lb| >= |lc|
    requires SortStrings([a, b, c]) == [a, b, c] && FirstJoin(Breaks([a, b, c], 1)) == 1
    ensures var d := Dict([a, b, c], map[a := la, b := lb, c := lc]);
      d.Valid() && Select(d, 2) == Success(Choice(Some(a), la))
  {
    var d := Dict([a, b, c], map[a := la, b := lb, c := lc]);
    ThreeKeys(a, b, c, la, lb, lc);
    AllCandidates(d, 2);
    assert RunStart(1) == 0 && [a, b, c][0] == a && d.entries[a] == la;
    SelectFromWalk(d, 2, [a, b, c], 1);
  }

  /**
   * Four dates, ranked by size as listed, where only the last two are
   * consecutive days: the second date is reported with its own list,
   * although more than a day separates it from the third.
   */
  lemma GapGapPair(a: string, b: string, c: string, e: string,
                   la: seq<string>, lb: seq<string>, lc: seq<string>, le: seq<string>)
    requires IsIsoDate(a) && IsIsoDate(b) && IsIsoDate(c) && IsIsoDate(e)
    requires DayNumber(b) > DayNumber(a) + 1 && DayNumber(c) > DayNumber(b) + 1 && DayNumber(e) == DayNumber(c) + 1
    requires |la| >= |lb| >= |lc| >= |le|
    ensures var d := Dict([a, b, c, e], map[a := la, b := lb, c := lc, e := le]);
      d.Valid() && Select(d, 2) == Success(Choice(Some(b), lb))
    ensures ExceedsGap(b, c, MsPerDay)
  {
    FourSorted(a, b, c, e);
    FourBreaks(a, b, c, e);
    assert a != b && a != c && a != e && b != c && b != e && c != e && b != "";
    FourSelectSecond(a, b, c, e, la, lb, lc, le);
  }

  /** Four distinct ranked keys, already sorted, whose first joined pair ends at the fourth: the second key is chosen. */
  lemma FourSelectSecond(a: string, b: string, c: string, e: string,
                         la: seq<string>, lb: seq<string>, lc: seq<string>, le: seq<string>)
    requires a != b && a != c && a != e && b != c && b != e && c != e && b != ""
    requires |la| >= |lb| >= |lc| >= |le|
    requires SortStrings([a, b, c, e]) == [a, b, c, e] && FirstJoin(Breaks([a, b, c, e], 1)) == 3
    ensures var d := Dict([a, b, c, e], map[a := la, b := lb, c := lc, e := le]);
      d.Valid() && Select(d, 2) == Success(Choice(Some(b), lb))
  {
    var d := Dict([a, b, c, e], map[a := la, b := lb, c := lc, e := le]);
    FourKeys(a, b, c, e, la, lb, lc, le);
    AllCandidates(d, 2);
    assert RunStart(3) == 1 && [a, b, c, e][1] == b && d.entries[b] == lb;
    SelectFromWalk(d, 2, [a, b, c, e], 3);
  }

  lemma Jan01() ensures IsIsoDate("2024-01-01") && DayNumber("2024-01-01") == 739251
  { CalendarDay("2024-01-01", 2024, 1, 1); }

  lemma Jan02() ensures IsIsoDate("2024-01-02") && DayNumber("2024-01-02") == 739252
  { CalendarDay("2024-01-02", 2024, 1, 2); }

  lemma Jan10() ensures IsIsoDate("2024-01-10") && DayNumber("2024-01-10") == 739260
  { CalendarDay("2024-01-10", 2024, 1, 10); }

  /**
   * Dates 2024-01-01, 2024-01-02 and 2024-01-10 with one attendee each:
   * all three are candidates, the first two are one day apart, and the
   * selection reports 2024-01-01 with its own attendee.
   */
  lemma ConsecutivePairFirst()
    ensures var d := Dict(["2024-01-01", "2024-01-02", "2024-01-10"],
                          map["2024-01-01" := ["a"], "2024-01-02" := ["b"], "2024-01-10" := ["c"]]);
      d.Valid() && Select(d, 2) == Success(Choice(Some("2024-01-01"), ["a"]))
  {
    var k1, k2, k3 := "2024-01-01", "2024-01-02", "2024-01-10";
    var d := Dict([k1, k2, k3], map[k1 := ["a"], k2 := ["b"], k3 := ["c"]]);
    Jan01();
    Jan02();
    Jan10();
    PairThenGap(k1, k2, k3, ["a"], ["b"], ["c"]);
  }

  lemma Mar01() ensures IsIsoDate("2024-03-01") && DayNumber("2024-03-01") == 739311
  { CalendarDay("2024-03-01", 2024, 3, 1); }

  lemma Mar02() ensures IsIsoDate("2024-03-02") && DayNumber("2024-03-02") == 739312
  { CalendarDay("2024-03-02", 2024, 3, 2); }

  lemma Mar05() ensures IsIsoDate("2024-03-05") && DayNumber("2024-03-05") == 739315
  { CalendarDay("2024-03-05", 2024, 3, 5); }

  /**
   * 2024-03-01 with two attendees, 2024-03-02 and 2024-03-05 with one: the
   * selection reports 2024-03-01 with both of its attendees.
   */
  lemma BusiestDayStartsRun()
    ensures var d := Dict(["2024-03-01", "2024-03-02", "2024-03-05"],
                          map["2024-03-01" := ["x", "y"], "2024-03-02" := ["z"], "2024-03-05" := ["w"]]);
      d.Valid() && Select(d, 2) == Success(Choice(Some("2024-03-01"), ["x", "y"]))
  {
    var k1, k2, k3 := "2024-03-01", "2024-03-02", "2024-03-05";
    var d := Dict([k1, k2, k3], map[k1 := ["x", "y"], k2 := ["z"], k3 := ["w"]]);
    Mar01();
    Mar02();
    Mar05();
    PairThenGap(k1, k2, k3, ["x", "y"], ["z"], ["w"]);
  }

  /** A single date: `findSequences` finds no run and reading its first run throws. */
  lemma OneDateThrows()
    ensures var d := Dict(["2024-04-01"], map["2024-04-01" := ["p"]]);
      d.Valid() && Select(d, 2) == Failure(NoSequence)
  {
    var d := Dict(["2024-04-01"], map["2024-04-01" := ["p"]]);
    FewDatesFail(d, 2);
  }

  lemma Apr01() ensures IsIsoDate("2017-04-01") && DayNumber("2017-04-01") == 736785
  { CalendarDay("2017-04-01", 2017, 4, 1); }

  lemma Apr05() ensures IsIsoDate("2017-04-05") && DayNumber("2017-04-05") == 736789
  { CalendarDay("2017-04-05", 2017, 4, 5); }

  lemma Apr10() ensures IsIsoDate("2017-04-10") && DayNumber("2017-04-10") == 736794
  { CalendarDay("2017-04-10", 2017, 4, 10); }

  lemma Apr11() ensures IsIsoDate("2017-04-11") && DayNumber("2017-04-11") == 736795
  { CalendarDay("2017-04-11", 2017, 4, 11); }

  /**
   * The start-date lag: with one attendee on each of 2017-04-01, 04-05,
   * 04-10 and 04-11, the only consecutive days are 04-10 and 04-11, yet the
   * reported start date is 04-05, which is part of no sequence.
   */
  lemma StartDateLags()
    ensures var d := Dict(["2017-04-01", "2017-04-05", "2017-04-10", "2017-04-11"],
                          map["2017-04-01" := ["a"], "2017-04-05" := ["b"],
                              "2017-04-10" := ["c"], "2017-04-11" := ["d"]]);
      d.Valid() && Select(d, 2) == Success(Choice(Some("2017-04-05"), ["b"])) &&
      ExceedsGap("2017-04-05", "2017-04-10", MsPerDay)
  {
    var k1, k2, k3, k4 := "2017-04-01", "2017-04-05", "2017-04-10", "2017-04-11";
    var d := Dict([k1, k2, k3, k4], map[k1 := ["a"], k2 := ["b"], k3 := ["c"], k4 := ["d"]]);
    Apr01();
    Apr05();
    Apr10();
    Apr11();
    GapGapPair(k1, k2, k3, k4, ["a"], ["b"], ["c"], ["d"]);
  }
}
