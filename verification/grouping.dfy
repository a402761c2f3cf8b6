/**
 * The module-level `hashTable` of bloc.ts and the merge that fills it:
 * for every partner and every one of their available dates, the partner's
 * email is appended to the list kept under `hashTable[country][date]`.
 *
 * JavaScript objects remember the order in which their keys were first
 * added, and `Object.keys` reports them in that order, so a dictionary is
 * modelled as its key sequence together with a map.
 */
module Grouping {

  /** A partner record as it arrives from the partners API. */
  datatype Partner = Partner(firstName: string, lastName: string, email: string,
                             country: string, availableDates: seq<string>)

  /** A JavaScript object used as a dictionary from strings to `V`. */
  datatype Dict<V> = Dict(keys: seq<string>, entries: map<string, V>)
  {
    /** The keys are distinct and are exactly the keys of the map. */
    ghost predicate Valid()
    {
      (forall i, j :: 0 <= i < j < |keys| ==> keys[i] != keys[j]) &&
      (forall k :: k in entries <==> k in keys)
    }

    /** `obj[k] = v`: an existing key keeps its place, a new one goes last. */
    function Put(k: string, v: V): (r: Dict<V>)
      ensures Valid() ==> r.Valid()
      ensures r.entries == entries[k := v]
      ensures keys <= r.keys
      ensures Valid() ==> forall j :: j in r.keys <==> j in keys || j == k
      ensures Valid() && k in entries ==> r.keys == keys
    {
      if k in entries then Dict(keys, entries[k := v]) else Dict(keys + [k], entries[k := v])
    }
  }

  function EmptyDict<V>(): (r: Dict<V>)
    ensures r.Valid() && r.keys == [] && r.entries == map[]
  {
    Dict([], map[])
  }

  /** `IAttendeesByDate`: the emails of the partners available on each date. */
  type AttendeesByDate = Dict<seq<string>>

  /** `IHashTable`: one `AttendeesByDate` per country. */
  type Table = Dict<AttendeesByDate>

  ghost predicate TableValid(t: Table)
  {
    t.Valid() && forall c :: c in t.entries ==> t.entries[c].Valid()
  }

  /** The list under `t[c][d]`, or the empty list when there is none. */
  function Lookup(t: Table, c: string, d: string): seq<string>
  {
    if c in t.entries && d in t.entries[c].entries then t.entries[c].entries[d] else []
  }

  predicate HasDate(t: Table, c: string, d: string)
  {
    c in t.entries && d in t.entries[c].entries
  }

  /**
   * One `mergeWith(hashTable, {[c]: {[d]: [e]}})` with the customizer that
   * concatenates arrays: the email goes to the end of the list at `t[c][d]`,
   * creating the country and the date when they are missing.
   */
  function Append(t: Table, c: string, d: string, e: string): (r: Table)
    ensures c in r.entries && d in r.entries[c].entries
    ensures t.keys <= r.keys
    ensures TableValid(t) ==> TableValid(r)
  {
    var inner := if c in t.entries then t.entries[c] else EmptyDict();
    var list := if d in inner.entries then inner.entries[d] else [];
    t.Put(c, inner.Put(d, list + [e]))
  }

  /** Appending touches only the list at `[c][d]`, and adds `e` at its end. */
  lemma AppendLookup(t: Table, c: string, d: string, e: string, c': string, d': string)
    ensures Lookup(Append(t, c, d, e), c', d') == Lookup(t, c', d') + (if c' == c && d' == d then [e] else [])
    ensures c' in Append(t, c, d, e).entries <==> c' in t.entries || c' == c
    ensures HasDate(Append(t, c, d, e), c', d') <==> HasDate(t, c', d') || (c' == c && d' == d)
    ensures c' in t.entries ==> t.entries[c'].keys <= Append(t, c, d, e).entries[c'].keys
  {
  }

  /** The inner `forEach` over one partner's dates, in order. */
  function AddDates(t: Table, c: string, e: string, ds: seq<string>): (r: Table)
    ensures t.keys <= r.keys
    ensures TableValid(t) ==> TableValid(r)
  {
    if ds == [] then t
    else Append(AddDates(t, c, e, ds[..|ds| - 1]), c, ds[|ds| - 1], e)
  }

  /** One more date of the inner `forEach`. */
  lemma AddDatesStep(t: Table, c: string, e: string, ds: seq<string>, k: nat)
    requires k < |ds|
    ensures AddDates(t, c, e, ds[..k + 1]) == Append(AddDates(t, c, e, ds[..k]), c, ds[k], e)
  {
    assert ds[..k + 1][..k] == ds[..k];
  }

  function AddPartner(t: Table, p: Partner): Table
  {
    AddDates(t, p.country, p.email, p.availableDates)
  }

  /** The outer `forEach` over the partners, in order. */
  function Merge(t: Table, ps: seq<Partner>): (r: Table)
    ensures t.keys <= r.keys
    ensures TableValid(t) ==> TableValid(r)
  {
    if ps == [] then t
    else AddPartner(Merge(t, ps[..|ps| - 1]), ps[|ps| - 1])
  }

  /** `n` copies of `e`. */
  function Repeat(e: string, n: nat): (r: seq<string>)
    ensures |r| == n && forall i :: 0 <= i < n ==> r[i] == e
  {
    seq(n, _ => e)
  }

  lemma RepeatOneMore(e: string, n: nat)
    ensures Repeat(e, n) + [e] == Repeat(e, n + 1)
  {
    assert (Repeat(e, n) + [e])[n] == e;
  }

  /** How many times `d` occurs in `ds`. */
  function Count(ds: seq<string>, d: string): (n: nat)
    ensures n <= |ds|
    ensures n == 0 <==> d !in ds
  {
    if ds == [] then 0 else Count(ds[..|ds| - 1], d) + (if ds[|ds| - 1] == d then 1 else 0)
  }

  /**
   * What the partners add under `[c][d]`, read off the partners alone: in
   * partner order, each partner of country `c` once per time `d` appears
   * among their available dates.
   */
  function Contributions(ps: seq<Partner>, c: string, d: string): seq<string>
  {
    if ps == [] then []
    else
      var p := ps[|ps| - 1];
      Contributions(ps[..|ps| - 1], c, d) +
        (if p.country == c then Repeat(p.email, Count(p.availableDates, d)) else [])
  }

  lemma {:induction false} AddDatesLookup(t: Table, c: string, e: string, ds: seq<string>, c': string, d': string)
    ensures Lookup(AddDates(t, c, e, ds), c', d') ==
      Lookup(t, c', d') + (if c' == c then Repeat(e, Count(ds, d')) else [])
  {
    if ds != [] {
      var init, last := ds[..|ds| - 1], ds[|ds| - 1];
      AddDatesLookup(t, c, e, init, c', d');
      AppendLookup(AddDates(t, c, e, init), c, last, e, c', d');
      RepeatOneMore(e, Count(init, d'));
    }
  }

  /** Each list in the merged table is the old list followed by what the partners contribute. */
  lemma {:induction false} MergeLookup(t: Table, ps: seq<Partner>, c: string, d: string)
    ensures Lookup(Merge(t, ps), c, d) == Lookup(t, c, d) + Contributions(ps, c, d)
  {
    if ps != [] {
      var init, p := ps[..|ps| - 1], ps[|ps| - 1];
      MergeLookup(t, init, c, d);
      AddDatesLookup(Merge(t, init), p.country, p.email, p.availableDates, c, d);
    }
  }

  lemma {:induction false} AddDatesCountries(t: Table, c: string, e: string, ds: seq<string>, c': string)
    ensures c' in AddDates(t, c, e, ds).entries <==> c' in t.entries || (c' == c && ds != [])
  {
    if ds != [] {
      var init := ds[..|ds| - 1];
      AddDatesCountries(t, c, e, init, c');
      AppendLookup(AddDates(t, c, e, init), c, ds[|ds| - 1], e, c', "");
    }
  }

  lemma {:induction false} AddDatesHas(t: Table, c: string, e: string, ds: seq<string>, c': string, d': string)
    ensures HasDate(AddDates(t, c, e, ds), c', d') <==> HasDate(t, c', d') || (c' == c && d' in ds)
  {
    if ds != [] {
      var init := ds[..|ds| - 1];
      AddDatesHas(t, c, e, init, c', d');
      AppendLookup(AddDates(t, c, e, init), c, ds[|ds| - 1], e, c', d');
      assert ds == init + [ds[|ds| - 1]];
    }
  }

  /** Some partner of country `c` has at least one available date. */
  predicate HasDatedPartner(ps: seq<Partner>, c: string)
  {
    exists i :: 0 <= i < |ps| && ps[i].country == c && ps[i].availableDates != []
  }

  lemma HasDatedPartnerLast(ps: seq<Partner>, c: string)
    requires ps != []
    ensures HasDatedPartner(ps, c) <==>
      HasDatedPartner(ps[..|ps| - 1], c) || (ps[|ps| - 1].country == c && ps[|ps| - 1].availableDates != [])
  {
    var init := ps[..|ps| - 1];
    if HasDatedPartner(init, c) {
      var i :| 0 <= i < |init| && init[i].country == c && init[i].availableDates != [];
      assert ps[i] == init[i];
    }
    if HasDatedPartner(ps, c) {
      var i :| 0 <= i < |ps| && ps[i].country == c && ps[i].availableDates != [];
      if i < |init| {
        assert init[i] == ps[i];
      }
    }
  }

  /**
   * A country is a key of the merged table exactly when it was one already
   * or some partner of that country has at least one available date.
   */
  lemma {:induction false} MergeCountries(t: Table, ps: seq<Partner>, c: string)
    ensures c in Merge(t, ps).entries <==> c in t.entries || HasDatedPartner(ps, c)
  {
    if ps != [] {
      var init, p := ps[..|ps| - 1], ps[|ps| - 1];
      MergeCountries(t, init, c);
      AddDatesCountries(Merge(t, init), p.country, p.email, p.availableDates, c);
      HasDatedPartnerLast(ps, c);
    }
  }

  /** Some partner of country `c` lists `d` among their available dates. */
  predicate Offers(ps: seq<Partner>, c: string, d: string)
  {
    exists i :: 0 <= i < |ps| && ps[i].country == c && d in ps[i].availableDates
  }

  lemma OffersLast(ps: seq<Partner>, c: string, d: string)
    requires ps != []
    ensures Offers(ps, c, d) <==>
      Offers(ps[..|ps| - 1], c, d) || (ps[|ps| - 1].country == c && d in ps[|ps| - 1].availableDates)
  {
    var init := ps[..|ps| - 1];
    if Offers(init, c, d) {
      var i :| 0 <= i < |init| && init[i].country == c && d in init[i].availableDates;
      assert ps[i] == init[i];
    }
    if Offers(ps, c, d) {
      var i :| 0 <= i < |ps| && ps[i].country == c && d in ps[i].availableDates;
      if i < |init| {
        assert init[i] == ps[i];
      }
    }
  }

  /**
   * A date is a key under a country exactly when it was one already or some
   * partner of that country lists it among their available dates.
   */
  lemma {:induction false} MergeDates(t: Table, ps: seq<Partner>, c: string, d: string)
    ensures HasDate(Merge(t, ps), c, d) <==> HasDate(t, c, d) || Offers(ps, c, d)
  {
    if ps != [] {
      var init, p := ps[..|ps| - 1], ps[|ps| - 1];
      MergeDates(t, init, c, d);
      AddDatesHas(Merge(t, init), p.country, p.email, p.availableDates, c, d);
      OffersLast(ps, c, d);
    }
  }

  lemma {:induction false} AddDatesKeepsOrder(t: Table, c: string, e: string, ds: seq<string>, c': string)
    requires c' in t.entries
    ensures c' in AddDates(t, c, e, ds).entries
    ensures t.entries[c'].keys <= AddDates(t, c, e, ds).entries[c'].keys
  {
    if ds != [] {
      var init := ds[..|ds| - 1];
      AddDatesKeepsOrder(t, c, e, init, c');
      AppendLookup(AddDates(t, c, e, init), c, ds[|ds| - 1], e, c', "");
    }
  }

  /**
   * Merging never reorders keys: the countries already in the table, and
   * the dates already under a country, stay a prefix of the new key order.
   */
  lemma {:induction false} MergeKeepsOrder(t: Table, ps: seq<Partner>, c: string)
    ensures t.keys <= Merge(t, ps).keys
    ensures c in t.entries ==> c in Merge(t, ps).entries && t.entries[c].keys <= Merge(t, ps).entries[c].keys
  {
    if ps != [] {
      var init, p := ps[..|ps| - 1], ps[|ps| - 1];
      MergeKeepsOrder(t, init, c);
      if c in t.entries {
        AddDatesKeepsOrder(Merge(t, init), p.country, p.email, p.availableDates, c);
      }
    }
  }

  /**
   * The table is never reset: merging `a` and then `b` into it is the same
   * as merging `a + b` once.
   */
  lemma {:induction false} MergeTwice(t: Table, a: seq<Partner>, b: seq<Partner>)
    ensures Merge(Merge(t, a), b) == Merge(t, a + b)
  {
    if b == [] {
      assert a + b == a;
    } else {
      var init := b[..|b| - 1];
      MergeTwice(t, a, init);
      assert (a + b)[..|a + b| - 1] == a + init;
      assert (a + b)[|a + b| - 1] == b[|b| - 1];
    }
  }
}
