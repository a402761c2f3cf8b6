/**
 * `countries`, the exported entry point of bloc.ts: merge the partners into
 * the module-level `hashTable`, then build one `ICountries` record per
 * country key, in key order.
 */
module Bloc {
  import opened Types
  import opened Grouping
  import opened Selection

  /** `ICountries`; `None` stands for a `null` start date. */
  datatype CountrySummary = CountrySummary(attendeeCount: nat, attendees: seq<string>, name: string,
                                           startDate: Option<string>)

  /**
   * The record the reducer pushes for country `c`, or the error thrown by
   * `findEarliestSeqWithMost`. The start date's list is looked up again in
   * the table before it is reported.
   */
  function Summarize(t: Table, c: string): Result<CountrySummary, Error>
    requires TableValid(t) && c in t.entries
  {
    match Select(t.entries[c], 2)
    case Failure(e) => Failure(e)
    case Success(choice) =>
      var lists := t.entries[c].entries;
      var emails :=
        if choice.startDate.Some? && choice.startDate.value in lists then lists[choice.startDate.value]
        else choice.attendees;
      Success(CountrySummary(|emails|, emails, c, choice.startDate))
  }

  /**
   * The record is named after its country, counts its attendees, reports
   * the start date `findEarliestSeqWithMost` chose, and lists the partners
   * of that country available on that date; without a start date it lists
   * no one. It is missing exactly when the selection threw.
   */
  lemma SummarizeRecord(t: Table, c: string)
    requires TableValid(t) && c in t.entries
    ensures var r := Summarize(t, c);
      (r.Failure? <==> Select(t.entries[c], 2).Failure?) &&
      (r.Success? ==>
        r.value.name == c && r.value.attendeeCount == |r.value.attendees| &&
        r.value.startDate == Select(t.entries[c], 2).value.startDate &&
        (r.value.startDate.Some? ==>
          r.value.startDate.value in t.entries[c].keys &&
          r.value.attendees == t.entries[c].entries[r.value.startDate.value]) &&
        (r.value.startDate.None? ==> r.value.attendees == []))
  {
    SelectChoice(t.entries[c], 2);
  }

  /** The outcome of the reducer for each key, in key order. */
  function Records(t: Table, keys: seq<string>): (rs: seq<Result<CountrySummary, Error>>)
    requires TableValid(t) && forall c :: c in keys ==> c in t.entries
    ensures |rs| == |keys|
  {
    seq(|keys|, i requires 0 <= i < |keys| => Summarize(t, keys[i]))
  }

  /**
   * Running the steps of a `reduce` in order: the pushed values if no step
   * throws, otherwise the first error.
   */
  function Collect<T>(rs: seq<Result<T, Error>>): Result<seq<T>, Error>
  {
    if rs == [] then Success([])
    else match Collect(rs[..|rs| - 1])
      case Failure(e) => Failure(e)
      case Success(vs) =>
        match rs[|rs| - 1]
        case Failure(e) => Failure(e)
        case Success(v) => Success(vs + [v])
  }

  /** Collecting succeeds exactly when every step does, and then keeps every value in order. */
  lemma {:induction false} CollectAll<T>(rs: seq<Result<T, Error>>)
    ensures Collect(rs).Success? <==> forall i :: 0 <= i < |rs| ==> rs[i].Success?
    ensures Collect(rs).Success? ==>
      |Collect(rs).value| == |rs| && forall i :: 0 <= i < |rs| ==> rs[i] == Success(Collect(rs).value[i])
  {
    if rs != [] {
      var init := rs[..|rs| - 1];
      CollectAll(init);
      assert forall i :: 0 <= i < |init| ==> init[i] == rs[i];
    }
  }

  /** The first `n` steps succeeded, pushing `a`. */
  ghost predicate SucceededSoFar<T>(rs: seq<Result<T, Error>>, a: seq<T>, n: nat)
  {
    n <= |rs| && |a| == n && forall i :: 0 <= i < n ==> rs[i] == Success(a[i])
  }

  lemma SucceededStep<T>(rs: seq<Result<T, Error>>, a: seq<T>, n: nat, v: T)
    requires SucceededSoFar(rs, a, n) && n < |rs| && rs[n] == Success(v)
    ensures SucceededSoFar(rs, a + [v], n + 1)
  {
    assert forall i :: 0 <= i < n ==> (a + [v])[i] == a[i];
  }

  /** All steps succeeded: collecting gives exactly the pushed values. */
  lemma SucceededAll<T>(rs: seq<Result<T, Error>>, a: seq<T>)
    requires SucceededSoFar(rs, a, |rs|)
    ensures Collect(rs) == Success(a)
  {
    CollectAll(rs);
    assert Collect(rs).value == a;
  }

  /** A step that throws makes the whole collection throw. */
  lemma FailedAt<T>(rs: seq<Result<T, Error>>, n: nat)
    requires n < |rs| && rs[n].Failure?
    ensures Collect(rs) == Failure(rs[n].error)
  {
    CollectAll(rs);
    assert Collect(rs).error.NoSequence? && rs[n].error.NoSequence?;
  }

  /** The result of `countries` for a table whose country keys are `keys`. */
  function Summaries(t: Table, keys: seq<string>): Result<seq<CountrySummary>, Error>
    requires TableValid(t) && forall c :: c in keys ==> c in t.entries
  {
    Collect(Records(t, keys))
  }

  /**
   * On success there is one record per country key, in key order, and the
   * record at position `i` is the one built for `keys[i]`; the call throws
   * exactly when the selection throws for some country.
   */
  lemma SummariesAt(t: Table, keys: seq<string>)
    requires TableValid(t) && forall c :: c in keys ==> c in t.entries
    ensures Summaries(t, keys).Success? ==>
      |Summaries(t, keys).value| == |keys| &&
      forall i :: 0 <= i < |keys| ==> Summarize(t, keys[i]) == Success(Summaries(t, keys).value[i])
    ensures Summaries(t, keys).Failure? <==> exists i :: 0 <= i < |keys| && Select(t.entries[keys[i]], 2).Failure?
  {
    var rs := Records(t, keys);
    CollectAll(rs);
    forall i | 0 <= i < |keys|
      ensures rs[i].Failure? <==> Select(t.entries[keys[i]], 2).Failure?
    {
      SummarizeRecord(t, keys[i]);
    }
  }

  /** A country offered on fewer than two dates makes the whole call throw. */
  lemma SingleDateCountryFails(t: Table, c: string)
    requires TableValid(t) && c in t.entries && |t.entries[c].keys| < 2
    ensures Summaries(t, t.keys).Failure?
  {
    FewDatesFail(t.entries[c], 2);
    var i :| 0 <= i < |t.keys| && t.keys[i] == c;
    SummariesAt(t, t.keys);
  }

  /** Everyone on a list under `[c][d]` is a partner of country `c` who offered date `d`. */
  lemma {:induction false} ContributorsOffered(ps: seq<Partner>, c: string, d: string, e: string)
    requires e in Contributions(ps, c, d)
    ensures exists i :: 0 <= i < |ps| && ps[i].country == c && d in ps[i].availableDates && ps[i].email == e
  {
    var init, p := ps[..|ps| - 1], ps[|ps| - 1];
    var tail := if p.country == c then Repeat(p.email, Count(p.availableDates, d)) else [];
    assert Contributions(ps, c, d) == Contributions(init, c, d) + tail;
    if e in Contributions(init, c, d) {
      ContributorsOffered(init, c, d, e);
      var i :| 0 <= i < |init| && init[i].country == c && d in init[i].availableDates && init[i].email == e;
      assert ps[i] == init[i];
    } else {
      assert e in tail;
      assert ps[|ps| - 1] == p;
    }
  }

  /**
   * For a table built by `countries` from nothing: every record names a
   * country some partner is from, and every attendee of a record with a
   * start date is a partner of that country who offered that date.
   */
  lemma RecordsComeFromPartners(ps: seq<Partner>, i: nat, e: string)
    requires var t := Merge(EmptyDict(), ps);
      Summaries(t, t.keys).Success? && i < |Summaries(t, t.keys).value|
    ensures var t := Merge(EmptyDict(), ps); var rec := Summaries(t, t.keys).value[i];
      HasDatedPartner(ps, rec.name) &&
      (rec.startDate.Some? && e in rec.attendees ==>
        exists k :: 0 <= k < |ps| && ps[k].country == rec.name && rec.startDate.value in ps[k].availableDates &&
                     ps[k].email == e)
  {
    var t := Merge(EmptyDict(), ps);
    SummariesAt(t, t.keys);
    var rec := Summaries(t, t.keys).value[i];
    var c := t.keys[i];
    assert Summarize(t, c) == Success(rec);
    SummarizeRecord(t, c);
    MergeCountries(EmptyDict(), ps, c);
    if rec.startDate.Some? && e in rec.attendees {
      var s := rec.startDate.value;
      MergeLookup(EmptyDict(), ps, c, s);
      ContributorsOffered(ps, c, s, e);
    }
  }

  /**
   * The module instance of bloc.ts: `hashTable` lives as long as the module
   * and is never reset, so each call of `countries` adds to what earlier
   * calls merged.
   */
  class Bloc {
    var hashTable: Table

    ghost predicate Valid()
      reads this
    {
      TableValid(hashTable)
    }

    /** `let hashTable: IHashTable = {}`. */
    constructor()
      ensures Valid() && hashTable == EmptyDict()
    {
      hashTable := EmptyDict();
    }

    /** `countries(partners)`; a thrown `TypeError` is the `Failure` result. */
    method Countries(partners: seq<Partner>) returns (r: Result<seq<CountrySummary>, Error>)
      requires Valid()
      modifies this
      ensures Valid()
      ensures hashTable == Merge(old(hashTable), partners)
      ensures r == Summaries(hashTable, hashTable.keys)
    {
      MergePartners(partners);
      r := Assemble();
    }

    /** The nested `forEach` loops, each step a `mergeWith` into `hashTable`. */
    method MergePartners(partners: seq<Partner>)
      requires Valid()
      modifies this
      ensures Valid()
      ensures hashTable == Merge(old(hashTable), partners)
    {
      var i := 0;
      while i < |partners|
        invariant 0 <= i <= |partners|
        invariant hashTable == Merge(old(hashTable), partners[..i])
        invariant Valid()
      {
        AddPartnerDates(partners[i]);
        assert partners[..i + 1][..i] == partners[..i];
        i := i + 1;
      }
      assert partners[..i] == partners;
    }

    /** The inner `forEach` over one partner's available dates. */
    method AddPartnerDates(p: Partner)
      requires Valid()
      modifies this
      ensures Valid()
      ensures hashTable == AddPartner(old(hashTable), p)
    {
      var k := 0;
      while k < |p.availableDates|
        invariant 0 <= k <= |p.availableDates|
        invariant hashTable == AddDates(old(hashTable), p.country, p.email, p.availableDates[..k])
        invariant Valid()
      {
        AddDatesStep(old(hashTable), p.country, p.email, p.availableDates, k);
        hashTable := Append(hashTable, p.country, p.availableDates[k], p.email);
        k := k + 1;
      }
      assert p.availableDates[..k] == p.availableDates;
    }

    /** The `reduce` over `Object.keys(hashTable)`. */
    method Assemble() returns (r: Result<seq<CountrySummary>, Error>)
      requires Valid()
      ensures r == Summaries(hashTable, hashTable.keys)
    {
      var keys := hashTable.keys;
      ghost var rs := Records(hashTable, keys);
      var a: seq<CountrySummary> := [];
      var n := 0;
      while n < |keys|
        invariant n <= |keys| && SucceededSoFar(rs, a, n)
      {
        var record := CountryRecord(keys[n]);
        assert rs[n] == record;
        if record.Failure? {
          FailedAt(rs, n);
          return Failure(record.error);
        }
        SucceededStep(rs, a, n, record.value);
        a := a + [record.value];
        n := n + 1;
      }
      SucceededAll(rs, a);
      r := Success(a);
    }

    /** One call of the reducer: select the start date, re-read its list, build the record. */
    method CountryRecord(country: string) returns (r: Result<CountrySummary, Error>)
      requires Valid() && country in hashTable.entries
      ensures r == Summarize(hashTable, country)
    {
      var choice := FindEarliestSeqWithMost(hashTable.entries[country], 2);
      if choice.Failure? {
        return Failure(choice.error);
      }
      var minAvail, emails := choice.value.startDate, choice.value.attendees;
      if minAvail.Some? {
        if minAvail.value in hashTable.entries[country].entries {
          emails := hashTable.entries[country].entries[minAvail.value];
        }
      }
      r := Success(CountrySummary(|emails|, emails, country, minAvail));
    }
  }
}
