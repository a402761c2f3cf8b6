# Countries bloc: a verified model

`src/bloc.ts` is the business logic of a small service. The service takes a list of partners and picks, for each country, the date on which partners should meet. Each partner record has a first and last name, an email, a country and a list of available dates.

The exported `countries` function works in three steps:

1. **Grouping.** For every partner and every available date, the partner's email is appended to `hashTable[country][date]`. This is done one `lodash.mergeWith` at a time, with a customiser that concatenates arrays. `hashTable` is a module-level object that is never reset.
2. **Run finding.** For every country key, `findEarliestSeqWithMost` does the following:
   - it ranks the country's dates by the number of attendees, largest first, with a stable sort;
   - it keeps the first `2 * days` of them (`days` is 2);
   - it passes them to `findSequences`.

   `findSequences` sorts the dates as strings. It then walks them with two cursors, `start` and `end`, and collects slices of two or more dates that it regards as sequences of days.
3. **Assembly.** The first date of the first slice becomes the country's start date. The record reports that date's attendee list, its length and the country name.

   When no slice is found, the read `seq[0][0]` throws a `TypeError`, and `countries` as a whole throws.

The model is split into modules that follow this structure:

| file | module | what it models |
|---|---|---|
| `types.dfy` | `Types` | `Option` for `string \| null`, and `Result` for a call that may throw |
| `ordering.dfy` | `Ordering` | the default `Array.prototype.sort` order on strings, and the sort itself |
| `dates.dfy` | `Dates` | `Date.parse` on `YYYY-MM-DD` strings, and the gap test |
| `sequences.dfy` | `Sequences` | `findSequences`: a method with the cursor walk as a `while` loop, proved against a specification of the slices it returns |
| `grouping.dfy` | `Grouping` | the `hashTable` values, and the effect of each `mergeWith` |
| `selection.dfy` | `Selection` | `findEarliestSeqWithMost`: the stable rank by size, the slice of candidates, and the choice of start date |
| `bloc.dfy` | `Bloc` | the class `Bloc` holding `hashTable`, with `countries` as a method that updates it; the records it assembles |
| `scenarios.dfy` | `Scenarios` | concrete inputs worked through the model, including the cursor lag and the crash |

Several representation choices follow from the JavaScript semantics:

- **Objects as dictionaries.** A JavaScript object used as a dictionary remembers the order in which keys were first added, and `Object.keys` reports them in that order. `Grouping.Dict` therefore pairs a key sequence with a map.
- **Dates that do not parse.** A date string that `Date.parse` cannot read gives `NaN`, and `NaN > dayGap` is false. So such a date never causes a break in the model either.
- **Breaks and joins.** The walk in `findSequences` looks only at whether each pair of neighbouring sorted dates is a *break* (the gap test holds) or *joined*. Its specification is therefore stated over those break flags, `Sequences.Breaks`.

The cursor updates are reproduced exactly. After a break, `start = end; end = idx` (src/bloc.ts:93-94). So after two breaks in a row, `start` lags one position behind:

- the first run starts at `RunStart(j)`, where `j` is the first joined position;
- `RunStart(j)` is `j - 1` for `j <= 2`, and `j - 2` from `j = 3` on;
- for sorted days 1, 5, 10 and 11, the one run found is `[5, 10, 11]`;
- after a run that ends at the break `b`, the next run starts at `NextRunStart(b, j)`, where `j` is the first joined position after `b`. That is `b` itself, or `j - 2` once `j - 2` is past `b`. So for sorted days 1, 2, 5, 10 and 11, the runs are `[1, 2]` and `[5, 10, 11]`.

Consequently, no contract claims that every neighbouring pair inside a run is within the gap. `Sequences.JoinedAfterFirst` promises it for every pair except the first.

Two behaviours of the code deserve a note. The model keeps both as written.

- **One date.** The code's own types expect a country without a sequence to get no start date. The record's `startDate` is `string | null` (src/bloc.ts:22). `findEarliestSeqWithMost` starts from `null` and `[]` (src/bloc.ts:117-118) and returns them when its guard fails (src/bloc.ts:131). The guard `seq && seq[0][0]` (src/bloc.ts:127) cannot catch an empty result, because `[]` is truthy and `seq[0]` is then `undefined`. So a country with a single date, or with no two dates within a day of each other, makes the read `seq[0][0]` throw a `TypeError`, and the whole call throws. `Scenarios.OneDateThrows`, `Selection.SelectFails` and `Bloc.SingleDateCountryFails` state the failure.
- **State between calls.** `hashTable` is created once, at module level (src/bloc.ts:33), and nothing clears it. A second call of `countries` therefore sees the partners of both calls. `Bloc.Bloc.Countries` and `Grouping.MergeTwice` state this.

## Model

| member | source | states |
|---|---|---|
| Ordering.SortStrings | src/bloc.ts:87 | the sorted dates are a permutation of the input, of the same length |
| Ordering.SortStringsSorted | src/bloc.ts:87 | the result is in the default string order (a proper prefix first, then character by character) |
| Ordering.SortedPermutationUnique | src/bloc.ts:87 | two sorted permutations of the same strings are equal, so any correct sort, stable or not, returns `SortStrings` |
| Ordering.LexLeTotal | src/bloc.ts:87 | any two strings are comparable under the default order |
| Ordering.LexLeTransitive | src/bloc.ts:87 | the default order is transitive |
| Dates.ParseMs | src/bloc.ts:89 | `Date.parse` gives a number exactly for valid calendar dates `YYYY-MM-DD`, and `NaN` otherwise |
| Dates.EpochDayIs1970 | src/bloc.ts:89 | day numbers are counted so that 1970-01-01, the zero of `Date.parse`, is `EpochDay` |
| Dates.GapInDays | src/bloc.ts:84-89 | with `dayGap = 86400000 * days`, the gap test holds iff both dates parse and their day numbers differ by more than `days`; a date that does not parse never makes a break |
| Dates.DaysBeforeNextYear | src/bloc.ts:89 | consecutive years are `DaysInYear` days apart (the Gregorian leap-year rule) |
| Dates.IsoLexLe | src/bloc.ts:87 | on `YYYY-MM-DD` strings the string order compares year, then month, then day; equal strings have equal fields |
| Dates.DayNumberFollowsFields | src/bloc.ts:87-89 | on valid dates the day number increases with (year, month, day), and equal day numbers mean the same date |
| Dates.ChronologicalOrder | src/bloc.ts:87-89 | on valid dates, the string sort is chronological: `LexLe(a, b)` iff `a` is no later than `b`, and equal strings iff the same day |
| Sequences.FirstJoinFrom | src/bloc.ts:88-97 | the first joined position from `from` on: every pair before it is a break, and it is joined unless no join is left |
| Sequences.NextBreakFrom | src/bloc.ts:89-94 | the first break from `from` on: every pair before it is joined |
| Sequences.FirstRunFirstPair | src/bloc.ts:93-94 | the first pair of the first run is a break exactly when the first joined pair ends at position 3 or later (the cursor lag) |
| Sequences.FewDatesNoRuns | src/bloc.ts:87-88 | fewer than two dates give no run |
| Sequences.LaggingRun | src/bloc.ts:89-103 | breaks before the second and third of four dates and a joined last pair give the one run of the last three dates |
| Sequences.LaggingSecondRun | src/bloc.ts:89-104 | on five dates with breaks before the third and fourth and every other pair joined, the runs are the first two dates and the last three: the second run starts a break before its joined pair |
| Sequences.FoundUnique | src/bloc.ts:83-108 | any two lists of runs that meet the specification of findSequences are equal, so it describes the walk's result exactly |
| Sequences.SameRunAt | src/bloc.ts:89-104 | runs placed by the same chaining rule that agree on the first run agree on every later one |
| Sequences.LongestFound | src/bloc.ts:89-104 | two lists of runs meeting the specification have the same number of runs: none can stop while a joined pair is left |
| Sequences.Visit | src/bloc.ts:87-106 | one call of the reducer for the date at `idx` keeps the walk invariant `LoopInv` at `idx + 1` |
| Sequences.CloseSlice | src/bloc.ts:89-94 | at a break: the pending slice `arr[start..end]` is pushed iff it has two dates or more, then `start' = end` and `end' = idx`; the walk invariant holds at `idx + 1` |
| Sequences.ExtendSlice | src/bloc.ts:95-104 | at a joined pair: `start` is kept and `end' = idx + 1`; the slice `arr[start..idx + 1]` is pushed iff it has two dates or more and `idx + 1` reaches the last date; the walk invariant holds at `idx + 1` |
| Sequences.FindSequences | src/bloc.ts:83-108 | the runs are slices of the sorted dates, each of two or more dates, in order and without overlap; inside a run every pair but the first is joined; a run ends at a break or at the last date; every joined pair is inside a run; there is no run iff no pair is joined; the first run starts at `RunStart` of the first joined pair; each later run starts where the lagging `start` cursor stands (`NextRunStart`) and ends at the next break; no joined pair follows the last run |
| Sequences.ReduceSorted | src/bloc.ts:87-107 | the `reduce` over the already sorted dates, with cursors starting at `start = 0`, `end = 1`, returns runs meeting the whole specification `Found` of findSequences, which `FoundUnique` shows fixes them |
| Grouping.EmptyDict | src/bloc.ts:33 | `{}` is a valid dictionary without keys |
| Grouping.Append | src/bloc.ts:45-54 | after one `mergeWith`, the country and the date are present, earlier country keys keep their order, and the table stays valid |
| Grouping.AppendLookup | src/bloc.ts:45-54 | one `mergeWith` adds the email at the end of `hashTable[c][d]` and changes no other list; it adds the country and the date if new, and keeps the old date keys of the country in order |
| Grouping.AddDatesLookup | src/bloc.ts:43-55 | after one partner's dates, each list of that partner's country ends with the email once per occurrence of its date; other countries are unchanged |
| Grouping.AddDatesCountries | src/bloc.ts:43-55 | a partner adds its country as a key iff its date list is not empty |
| Grouping.AddDatesHas | src/bloc.ts:43-55 | a partner adds exactly the dates it lists under its own country |
| Grouping.MergeLookup | src/bloc.ts:41-56 | every list after the loops is the old list followed by the emails of the partners offering that country and date, in processing order, duplicates kept |
| Grouping.MergeCountries | src/bloc.ts:41-56 | the country keys after the loops are the old ones plus the countries of partners with at least one date |
| Grouping.MergeDates | src/bloc.ts:41-56 | a date key exists under a country after the loops iff it did before or some partner of that country lists it |
| Grouping.MergeKeepsOrder | src/bloc.ts:41-56 | existing country keys and date keys keep their order; new keys come after them |
| Grouping.MergeTwice | src/bloc.ts:33-56 | merging one partner list and then another equals merging their concatenation, so the never-reset table accumulates across calls |
| Selection.InsertBySize | src/bloc.ts:121-122 | inserting a key into a ranked list adds exactly that key |
| Selection.Rank | src/bloc.ts:121-122 | the ranked keys are a permutation of the keys |
| Selection.RankDescending | src/bloc.ts:121-122 | the ranked keys have attendee lists of non-increasing length |
| Selection.RankStable | src/bloc.ts:121-122 | keys whose lists have the same length keep their key order (the sort is stable) |
| Selection.RankKeepsDescending | src/bloc.ts:121-122 | keys already in non-increasing order are left as they are |
| Selection.Candidates | src/bloc.ts:126 | `slice(0, days * 2)` keeps `min(2 * days, number of keys)` keys |
| Selection.CandidatesAreKeys | src/bloc.ts:126 | every candidate is a date key of the country |
| Selection.Walked | src/bloc.ts:126 | the dates `findSequences` walks are a permutation of the candidates |
| Selection.SelectChoice | src/bloc.ts:127-131 | a reported start date is a non-empty candidate key, reported with its own attendee list; a `null` start date comes with no attendees and only when the empty string is a candidate |
| Selection.FindEarliestSeqWithMost | src/bloc.ts:116-132 | the method returns `Select`: rank, slice, `findSequences` with one day, and the first date of the first run, or the `TypeError` when there is no run |
| Selection.FirstRunSelects | src/bloc.ts:126-130 | for any runs that satisfy the specification of `findSequences`, the call throws iff there is no run; otherwise it reports the first date of the first run with that date's list (`null` and `[]` for the empty string) |
| Selection.SelectFails | src/bloc.ts:126-127 | the call throws iff every neighbouring pair of sorted candidates passes the one-day gap test (both parse and lie more than `86400000` ms apart) |
| Selection.FewDatesFail | src/bloc.ts:126-127 | a country with fewer than two dates, or `days = 0`, makes the call throw |
| Selection.CalendarDatesGiveStart | src/bloc.ts:127-129 | when every date key is a calendar date, a result always has a start date |
| Selection.StartOfFirstRun | src/bloc.ts:126-129 | the start date is the sorted candidate at `RunStart` of the first joined pair; its pair with the next date is a break iff that joined pair ends at position 3 or later |
| Bloc.SummarizeRecord | src/bloc.ts:60-72 | a country's record is named after it, counts its attendees and reports the chosen start date; the attendees are the list under that date, or none without one; the record is missing exactly when the selection throws |
| Bloc.CollectAll | src/bloc.ts:60-74 | the `reduce` completes iff every record is built, and then holds each record in key order |
| Bloc.SummariesAt | src/bloc.ts:60-74 | on success there is one record per country key, in key order, each the record of its country; the call throws iff the selection throws for some country |
| Bloc.SingleDateCountryFails | src/bloc.ts:60-74 | one country with fewer than two dates makes the whole call throw |
| Bloc.ContributorsOffered | src/bloc.ts:41-55 | every email in a list comes from a partner of that country that lists that date |
| Bloc.RecordsComeFromPartners | src/bloc.ts:40-75 | on a fresh table, every record names a country of some partner with a date, and every reported attendee is a partner of that country available on the start date |
| Bloc.Bloc.constructor | src/bloc.ts:33 | `hashTable` starts as `{}` |
| Bloc.Bloc.Countries | src/bloc.ts:40-75 | `countries` merges the partners into the kept `hashTable` and returns the records of all its keys, or the thrown error |
| Bloc.Bloc.MergePartners | src/bloc.ts:41-56 | the outer `forEach` leaves `hashTable` equal to `Merge` of its old value and the partners |
| Bloc.Bloc.AddPartnerDates | src/bloc.ts:43-55 | the inner `forEach` over one partner's dates leaves `hashTable` equal to `AddPartner` of its old value |
| Bloc.Bloc.Assemble | src/bloc.ts:60-74 | the `reduce` returns `Summaries` of the table over its keys, stopping at the first throw |
| Bloc.Bloc.CountryRecord | src/bloc.ts:61-72 | one reducer call returns the record `Summarize` describes |
| Scenarios.ChronologicalIsSorted | src/bloc.ts:87 | calendar dates in chronological order are already sorted |
| Scenarios.PairThenGap | src/bloc.ts:116-132 | three ranked dates whose first two are consecutive days select the first date with its list |
| Scenarios.GapGapPair | src/bloc.ts:89-94 | with breaks before the second and third of four ranked dates, the second date is selected although it is more than a day before the third |
| Scenarios.ConsecutivePairFirst | src/bloc.ts:116-132 | 2024-01-01, 2024-01-02 and 2024-01-10 select 2024-01-01 with its attendee |
| Scenarios.BusiestDayStartsRun | src/bloc.ts:116-132 | the busiest of three dates, followed by the next day, is selected with both of its attendees |
| Scenarios.StartDateLags | src/bloc.ts:89-94 | 2017-04-01, 04-05, 04-10 and 04-11 select 04-05, which is five days before the next date |
| Scenarios.OneDateThrows | src/bloc.ts:126-127 | a country with the single date 2024-04-01 makes the call throw |

## Left out

- `src/app.ts` is not part of this model. It covers environment variables, the HTTPS GET and POST, JSON, and the promise chain with its logging. It is I/O with no logic of the core.
- `lodash.mergeWith` in general: only its effect on this shape (append to a list in a map of maps) is modelled.
- Dates.ParseMs: accepts only `YYYY-MM-DD` calendar dates. Every other string is treated as `NaN`, although JavaScript also parses date-time strings, other formats and out-of-range days. Time zones do not arise for date-only ISO strings, which parse as UTC midnight.
- Ordering.LexLe: compares Dafny characters. JavaScript compares UTF-16 code units, so the order can differ on characters outside the Basic Multilingual Plane.
- `Object.keys` order for integer-like keys (listed first, ascending) is not modelled. Keys keep insertion order, which is what non-integer strings such as dates get.
- Sequences.FindSequences: `dates.sort()` sorts the caller's array in place. The model returns the runs of `SortStrings(dates)` and does not reorder the argument. The only caller passes a fresh `slice`, so nothing else could see the reordering.
- `days` is a natural number in the model. Negative or fractional values of `days`, and the floating-point arithmetic of JavaScript numbers, are not modelled. For four-digit years every millisecond value is an exact integer well below 2^53.
- The default parameters (`days = 1` for `findSequences`, `days = 2` for `findEarliestSeqWithMost`) are passed explicitly.
- The guard `seq &&` at src/bloc.ts:127 is always true, because `findSequences` always returns an array. The model does not test it.
- `firstName` and `lastName` are carried in `Grouping.Partner` but never used, as in the source.
