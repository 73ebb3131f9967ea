# Moto tracker: record store and statistics

A Dafny model of the data layer of a motorcycle tracking app. The app keeps a single
aggregate of type `MotoData` holding:

- the current odometer reading,
- the km at the last oil change,
- the list of refuels,
- the list of oil changes,
- the oil-change interval.

Six mutations each replace that aggregate with an edited copy: update the km, add a refuel,
add an oil change, delete a refuel, delete an oil change, and set the interval.
`calculateStatistics` derives a read-only `Statistics` summary from the aggregate.

Modules:

- `SharedTypes` (`types.dfy`) holds the record shapes of `shared/types.ts`.
  - A refuel's or oil change's `date` is an integer day number, ordered and spaced like the
    time stamp of that calendar date.
  - Ids are strings.
  - `km` and the interval are integers; litres and money are exact reals.
- `Sequences` (`sequences.dfy`) gives the meaning of the array operations the store relies on:
  - `Without` is `filter` by id;
  - `Total` is `reduce` with `+`;
  - `SortBy` is a stable sort.

  The stable sort is an insertion sort. `StableSortIsSortBy` proves that any sort which is
  ordered by the key and keeps each key's entries in their original order gives the same
  sequence. So the model does not depend on which stable algorithm the runtime uses.
- `MotoRecord` (`record.dfy`) defines the default aggregate and the six mutations as functions
  from the aggregate to its replacement. It proves:
  - the id-uniqueness invariant is kept;
  - deletion is a filter;
  - adding then deleting round-trips.
- `MotoStatistics` (`statistics.dfy`) gives the statistics as functions. `StatisticsOf(d)` is
  the summary of `d`. The lemmas give closed forms for the fuel level and the consumption, the
  bounds of the oil projection, and the maximum dates. They also say how each of the six
  mutations moves the statistics.
- `Store` (`store.dfy`) is the stateful side. The class `MotoStore` holds `data` and has one
  method per mutation; each method replaces `data` with the function's result.
  `CalculateStatistics` runs the loops of the source:
  - the forward fuel replay with a reset;
  - the backward search for the last full tank, with `break`;
  - the conditional consumption and km-per-month assignments.

  It is proved equal to `StatisticsOf(data)`.

## Model

| member | source | states |
|---|---|---|
| MotoRecord.DefaultData | client/src/hooks/useMotoData.ts:5-13 | a fresh aggregate has no refuels or oil changes, zero km and last-oil-change km, and the 5000 km interval |
| MotoRecord.UniqueIds | client/src/hooks/useMotoData.ts:46 | defines the store's invariant: ids are distinct within the refuels and within the oil changes; no contract of its own; kept by AppendRefuelKeepsUniqueIds, AppendOilChangeKeepsUniqueIds and RemoveKeepsUniqueIds |
| MotoRecord.SetCurrentKm | client/src/hooks/useMotoData.ts:38-41 | defines updateCurrentKm: the copy with only currentKm replaced; no contract of its own; its effect on the summary is SetCurrentKmStatistics |
| MotoRecord.AppendRefuel | client/src/hooks/useMotoData.ts:48-51 | defines addRefuel's new aggregate: the refuel appended at the end; no contract of its own; see AppendRefuelKeepsUniqueIds, AppendRefuelTotals and AddThenRemoveRefuel |
| MotoRecord.AppendOilChange | client/src/hooks/useMotoData.ts:61-65 | defines addOilChange's new aggregate: the entry appended and lastOilChangeKm set to its km; no contract of its own; see AppendOilChangeStatistics and AddThenRemoveOilChange |
| MotoRecord.RemoveRefuel | client/src/hooks/useMotoData.ts:70-76 | defines deleteRefuel: the refuels filtered by id; no contract of its own; see RemoveRefuelMembers, RemoveAbsentRefuel, RemoveStoredRefuel and RemoveRefuelStatistics |
| MotoRecord.RemoveOilChange | client/src/hooks/useMotoData.ts:78-84 | defines deleteOilChange: the oil changes filtered by id, lastOilChangeKm untouched; no contract of its own; see RemoveOilChangeMembers, RemoveAbsentOilChange, RemoveStoredOilChange and RemoveOilChangeStatistics |
| MotoRecord.SetOilChangeInterval | client/src/hooks/useMotoData.ts:86-89 | defines setOilChangeInterval: the copy with only oilChangeInterval replaced; no contract of its own; its effect on the summary is SetOilChangeIntervalStatistics |
| MotoStatistics.Chronological | client/src/hooks/useMotoData.ts:92 | defines the sorted copy of the refuels as the stable sort by date; no contract of its own; see ChronologicalOrder, StableSortIsSortBy and ChronologicalWithout |
| MotoStatistics.FuelLevel | client/src/hooks/useMotoData.ts:95-101 | defines the replay with reset over a sequence; no contract of its own; closed forms in FuelLevelWithoutFull and FuelLevelAfterLastFull, loop in ReplayFuelLevel |
| MotoStatistics.IsLastFull | client/src/hooks/useMotoData.ts:108-113 | defines "position k holds a full tank and no later refuel is full"; no contract of its own |
| MotoStatistics.AverageConsumption | client/src/hooks/useMotoData.ts:115-126 | defines the consumption over the sorted refuels; no contract of its own; closed forms in ConsumptionSinceLastFull and ConsumptionWithoutFull |
| MotoStatistics.KmPerMonth | client/src/hooks/useMotoData.ts:129-137 | defines the distance per 30-day month over the sorted refuels; no contract of its own; closed forms in KmPerMonthSpan and KmPerMonthWithoutRefuels |
| MotoStatistics.LastDate | client/src/hooks/useMotoData.ts:151 | defines the date of the last sorted refuel, or none; no contract of its own; LastRefuelDateIsLatest shows it is the greatest refuel date |
| MotoStatistics.StatisticsOf | client/src/hooks/useMotoData.ts:91-156 | defines the summary of an aggregate as StatisticsOver its chronological refuels; no contract of its own; characterised field by field by the lemmas below |
| MotoStatistics.StatisticsOver | client/src/hooks/useMotoData.ts:142-155 | defines the summary fields from the aggregate and a given order of its refuels; no contract of its own |
| MotoRecord.NewRefuel | client/src/hooks/useMotoData.ts:44-47 | the new refuel carries exactly the caller's fields plus the assigned id |
| MotoRecord.NewOilChange | client/src/hooks/useMotoData.ts:57-60 | the new oil change carries exactly the caller's fields plus the assigned id |
| Store.MotoStore.constructor | client/src/hooks/useMotoData.ts:16 | the store starts from the default aggregate, which satisfies the unique-id invariant |
| Store.MotoStore.UpdateCurrentKm | client/src/hooks/useMotoData.ts:38-41 | only currentKm changes, to the given km; the id invariant is kept |
| Store.MotoStore.AddRefuel | client/src/hooks/useMotoData.ts:43-54 | with a fresh id, the refuel list becomes the old list plus exactly the returned refuel (input fields plus id), nothing else changes, and ids stay unique |
| Store.MotoStore.AddOilChange | client/src/hooks/useMotoData.ts:56-68 | with a fresh id, the returned entry is appended, lastOilChangeKm becomes its km whatever it was before, refuels, currentKm and interval are unchanged, and ids stay unique |
| Store.MotoStore.DeleteRefuel | client/src/hooks/useMotoData.ts:70-76 | the refuel list becomes its filter by id, the id is then absent, and every other field is unchanged |
| Store.MotoStore.DeleteOilChange | client/src/hooks/useMotoData.ts:78-84 | the oil-change list becomes its filter by id, the id is then absent, and lastOilChangeKm is left as it was |
| Store.MotoStore.SetOilChangeInterval | client/src/hooks/useMotoData.ts:86-89 | only oilChangeInterval changes, to the given value |
| Store.MotoStore.CalculateStatistics | client/src/hooks/useMotoData.ts:91-156 | the summary equals StatisticsOf of the held aggregate |
| Store.ComputeStatistics | client/src/hooks/useMotoData.ts:94-155 | given the chronological refuels, the assembled summary equals StatisticsOver of the aggregate and that order |
| Store.ReplayFuelLevel | client/src/hooks/useMotoData.ts:95-101 | the forward loop with the full-tank reset ends with FuelLevel of the sorted refuels |
| Store.FindLastFull | client/src/hooks/useMotoData.ts:106-113 | the backward search with break gives the index of the last full-tank refuel, or -1 when no refuel is full |
| Store.ComputeAverageConsumption | client/src/hooks/useMotoData.ts:104-126 | the conditional km and litre accumulation gives AverageConsumption of the sorted refuels |
| Store.ComputeKmPerMonth | client/src/hooks/useMotoData.ts:129-137 | the conditional assignment gives KmPerMonth of the sorted refuels |
| Sequences.Without | client/src/hooks/useMotoData.ts:73 | the filtered list is no longer than the original and holds no entry with the removed key |
| Sequences.WithoutMember | client/src/hooks/useMotoData.ts:73 | an entry survives the filter exactly when it was present and has another key |
| Sequences.WithoutAbsent | client/src/hooks/useMotoData.ts:73 | filtering out a key nobody has returns the list unchanged |
| Sequences.WithoutDistinctAt | client/src/hooks/useMotoData.ts:73 | with distinct keys, filtering out the key at position i removes that entry only, keeping the others' order |
| Sequences.TotalPermutation | client/src/hooks/useMotoData.ts:145-146 | a sum over the list does not depend on the order of the entries |
| Sequences.TotalRemoveAt | client/src/hooks/useMotoData.ts:145-146 | a sum is the term at position i plus the sum over the remaining entries |
| Sequences.Total | client/src/hooks/useMotoData.ts:145-146 | defines reduce((sum, r) => sum + f(r), 0) over exact reals; no contract of its own; see TotalAppend, TotalRemoveAt and TotalPermutation |
| Sequences.TotalAppend | client/src/hooks/useMotoData.ts:119-121 | a sum over a concatenation is the sum of the sums |
| Sequences.SortBy | client/src/hooks/useMotoData.ts:92 | the sorted list is a permutation of the input, has the same length and is non-decreasing by key |
| Sequences.InsertWithKey | client/src/hooks/useMotoData.ts:92 | one insertion step adds the new entry at the end of the entries of its own key and changes no other key's entries |
| Sequences.SortByStable | client/src/hooks/useMotoData.ts:92 | sorting keeps the entries of each key in their original relative order |
| Sequences.StableSortIsSortBy | client/src/hooks/useMotoData.ts:92 | any ordered sequence that keeps every key's entries in input order is the sorted list, so the stable sort is unique |
| Sequences.WithoutSorted | client/src/hooks/useMotoData.ts:73 | filtering a sorted list leaves it sorted |
| Sequences.WithKeyWithout | client/src/hooks/useMotoData.ts:73 | filtering by id and selecting one date's entries commute |
| Sequences.SortByWithout | client/src/hooks/useMotoData.ts:92 | sorting the filtered list equals filtering the sorted list |
| Sequences.SortByEnds | client/src/hooks/useMotoData.ts:92 | the first sorted entry has the least key and the last the greatest |
| MotoRecord.AppendRefuelKeepsUniqueIds | client/src/hooks/useMotoData.ts:43-54 | appending a refuel under a fresh id keeps ids unique |
| MotoRecord.AppendOilChangeKeepsUniqueIds | client/src/hooks/useMotoData.ts:56-68 | appending an oil change under a fresh id keeps ids unique |
| MotoRecord.RemoveKeepsUniqueIds | client/src/hooks/useMotoData.ts:70-84 | deleting by id keeps ids unique in both lists |
| MotoRecord.RemoveRefuelMembers | client/src/hooks/useMotoData.ts:70-76 | after deleteRefuel a refuel is present iff it was present and has another id |
| MotoRecord.RemoveOilChangeMembers | client/src/hooks/useMotoData.ts:78-84 | after deleteOilChange an oil change is present iff it was present and has another id |
| MotoRecord.RemoveAbsentRefuel | client/src/hooks/useMotoData.ts:70-76 | deleting an unknown refuel id leaves the aggregate unchanged |
| MotoRecord.RemoveAbsentOilChange | client/src/hooks/useMotoData.ts:78-84 | deleting an unknown oil-change id leaves the aggregate unchanged |
| MotoRecord.RemoveStoredRefuel | client/src/hooks/useMotoData.ts:70-76 | with unique ids, deleting a stored refuel's id removes exactly that refuel and keeps the others' order |
| MotoRecord.RemoveStoredOilChange | client/src/hooks/useMotoData.ts:78-84 | with unique ids, deleting a stored oil change's id removes exactly that entry and keeps the others' order |
| MotoRecord.AddThenRemoveRefuel | client/src/hooks/useMotoData.ts:43-76 | adding a refuel under a fresh id and then deleting that id restores the aggregate |
| MotoRecord.AddThenRemoveOilChange | client/src/hooks/useMotoData.ts:56-84 | adding and then deleting an oil change restores everything except lastOilChangeKm, which keeps the deleted entry's km |
| MotoStatistics.LastFullIndex | client/src/hooks/useMotoData.ts:106-113 | the result is -1 exactly when no refuel is full, and otherwise a full refuel with none full after it |
| MotoStatistics.KmToNextOilChange | client/src/hooks/useMotoData.ts:140 | never negative; equals interval - (currentKm - lastOilChangeKm) when that is non-negative, else 0; at most the interval when the odometer has not gone back |
| MotoStatistics.LatestRefuelDate | client/src/hooks/useMotoData.ts:151 | none iff there are no refuels; otherwise a stored refuel's date that no refuel date exceeds |
| MotoStatistics.LatestOilChangeDate | client/src/hooks/useMotoData.ts:152-154 | none iff there are no oil changes; otherwise a stored oil-change date that no oil-change date exceeds |
| MotoStatistics.ChronologicalOrder | client/src/hooks/useMotoData.ts:92 | the chronological list is a permutation of the refuels, non-decreasing by date, with same-day refuels in insertion order |
| MotoStatistics.FuelLevelWithoutFull | client/src/hooks/useMotoData.ts:95-101 | with no full tank, the fuel level is the sum of all litres |
| MotoStatistics.FuelLevelAfterLastFull | client/src/hooks/useMotoData.ts:95-101 | otherwise it is the last full tank's litres plus the litres of every refuel after it |
| MotoStatistics.ChronologicalAppendLatest | client/src/hooks/useMotoData.ts:92 | a refuel dated no earlier than every stored one goes last in chronological order |
| MotoStatistics.FuelLevelAfterLatestRefuel | client/src/hooks/useMotoData.ts:95-101 | logging the newest refuel resets the level to its litres when full, otherwise adds them |
| MotoStatistics.LastFullIndexIsLastFull | client/src/hooks/useMotoData.ts:108-113 | the backward search finds the one position that holds the last full tank |
| MotoStatistics.ConsumptionWithoutFull | client/src/hooks/useMotoData.ts:115-126 | with no full tank the consumption is 0 |
| MotoStatistics.ConsumptionSinceLastFull | client/src/hooks/useMotoData.ts:115-126 | with the last full tank at k, the consumption is the litres after k over the km from k to the last refuel, times 100, when k is not last and that distance is positive; otherwise 0 |
| MotoStatistics.ChronologicalEnds | client/src/hooks/useMotoData.ts:130-132 | the chronological list starts at the earliest refuel date and ends at the latest |
| MotoStatistics.KmPerMonthSpan | client/src/hooks/useMotoData.ts:129-137 | km per month is currentKm over (latest - earliest date) / 30, and 0 when those dates coincide |
| MotoStatistics.KmPerMonthWithoutRefuels | client/src/hooks/useMotoData.ts:129-130 | km per month is 0 without refuels |
| MotoStatistics.StatisticsTotals | client/src/hooks/useMotoData.ts:143-146 | totalKm is the stored odometer reading, totalRefuels is the number of stored refuels, and totalLiters and totalSpent are their litre and value sums in stored order |
| MotoStatistics.TotalsIgnoreOrder | client/src/hooks/useMotoData.ts:144-146 | the refuel count, litres and spend do not depend on the order refuels are stored in, and the litres equal those of the chronological list |
| MotoStatistics.EmptyRecordStatistics | client/src/hooks/useMotoData.ts:91-156 | with nothing logged, every fuel figure, total and rate is 0 and both dates are none |
| MotoStatistics.SetCurrentKmStatistics | client/src/hooks/useMotoData.ts:38-41 | updating the km changes only totalKm, km per month and the oil projection |
| MotoStatistics.SetOilChangeIntervalStatistics | client/src/hooks/useMotoData.ts:86-89 | setting the interval changes only the oil projection |
| MotoStatistics.AppendRefuelTotals | client/src/hooks/useMotoData.ts:43-54 | adding a refuel raises the count by one and the totals by its litres and value |
| MotoStatistics.ChronologicalAppend | client/src/hooks/useMotoData.ts:92 | the stable date sort of the refuels with one appended is the old sorted sequence with the new refuel inserted after every refuel of its date or earlier |
| MotoStatistics.AppendRefuelStatistics | client/src/hooks/useMotoData.ts:43-54 | after addRefuel every figure is the figure over the old chronological sequence with the new refuel inserted in date order |
| MotoStatistics.AppendLatestRefuelStatistics | client/src/hooks/useMotoData.ts:43-54 | a refuel dated no earlier than every stored one goes last: every figure is computed over the old chronological sequence plus it, and the last refuel date becomes its date |
| MotoStatistics.RemoveStoredRefuelTotals | client/src/hooks/useMotoData.ts:70-76 | with unique ids, deleting a stored refuel takes exactly its litres and value off the totals and lowers the count by one |
| MotoStatistics.AppendOilChangeStatistics | client/src/hooks/useMotoData.ts:56-68 | adding an oil change changes only the oil projection and the last oil-change date |
| MotoStatistics.LastRefuelDateIsLatest | client/src/hooks/useMotoData.ts:151 | the summary's last refuel date is LatestRefuelDate: none iff there are no refuels, otherwise no refuel date exceeds it |
| MotoStatistics.ChronologicalWithout | client/src/hooks/useMotoData.ts:92 | sorting the refuels left after a delete gives the old chronological sequence with the deleted ones filtered out |
| MotoStatistics.RemoveRefuelStatistics | client/src/hooks/useMotoData.ts:70-76 | after deleteRefuel every figure is computed over the old chronological sequence with the deleted refuels filtered out, the rest neither reordered nor changed |
| MotoStatistics.RemoveOilChangeStatistics | client/src/hooks/useMotoData.ts:78-84 | deleteOilChange changes only the last oil-change date; the oil projection does not move, even when the deleted entry set lastOilChangeKm |
| MotoStatistics.AddThenRemoveRefuelStatistics | client/src/hooks/useMotoData.ts:43-76 | adding and then deleting a refuel gives back the same statistics |
| MotoStatistics.AddThenRemoveOilChangeStatistics | client/src/hooks/useMotoData.ts:56-84 | adding and then deleting an oil change gives back the same statistics except the oil projection |
| MotoStatistics.FullThenPartialExample | client/src/hooks/useMotoData.ts:91-156 | an 8 L partial refuel at 1200 km on 2024-02-01 stored before a full 10 L tank at 1000 km on 2024-01-01 gives 18 L in the tank, 4 L/100 km, 18 L in total, the later date as last refuel date and 3800 km to the next oil change |
| MotoStatistics.FullThenPartialFigures | client/src/hooks/useMotoData.ts:92-126 | for those two refuels, the chronological order puts the full tank first, and the fuel level, consumption, last date and litre total take those values |
| MotoStatistics.SwappedPairSorts | client/src/hooks/useMotoData.ts:92 | two refuels stored latest first come out earliest first |
| MotoStatistics.SingleFullRefuelExample | client/src/hooks/useMotoData.ts:91-137 | any single full 12 L refuel gives 12 L in the tank, no consumption and no km per month |
| MotoStatistics.OrderedPairSorts | client/src/hooks/useMotoData.ts:92 | two refuels already stored in date order stay in that order |
| MotoStatistics.OilChangeDueExample | client/src/hooks/useMotoData.ts:140 | 4800 km since the last change with a 5000 km interval leaves 200 km; 5200 km gives 0 |
| MotoStatistics.KmPerMonthExample | client/src/hooks/useMotoData.ts:129-137 | two refuels on 2024-01-01 and 2024-01-31, stored in date order, with 300 km on the odometer give 300 km per month |
| MotoStatistics.KmPerMonthOfPair | client/src/hooks/useMotoData.ts:129-137 | the same figure over the two refuels alone |

## Left out

- Loading from and saving to `localStorage`, JSON encoding, and the logged parse-failure fallback (useMotoData.ts:19-36). These are I/O. Saving is modelled as replacing `data`; loading as starting from the default aggregate.
- The React hook machinery (`useState`, `useEffect`, `useCallback`, the `loaded` flag). The model applies each mutation to the latest aggregate, while the hook's callbacks (client/src/hooks/useMotoData.ts:38-89) read the aggregate of the last render and store their result with a plain `setData(newData)` (lines 33-36), so mutations issued between two renders lose all but the last: `addRefuel(a); addRefuel(b)` in one event handler stores only `b`. Render scheduling is not part of this model.
- Id generation from `Date.now().toString()`. The clock is outside the model. `AddRefuel` and `AddOilChange` take the id as a parameter and require it to be fresh; the source does not guarantee that two entries added in the same millisecond get distinct ids.
- Parsing of `"YYYY-MM-DD"` strings with `new Date(...)` and the millisecond arithmetic. Dates are day numbers, and a month is 30 days over exact reals. Strings that do not parse (`NaN` time stamps) are not modelled.
- IEEE floating point. Litres, money, consumption and km per month are exact reals. `km`, `currentKm` and the interval are integers, although the source's `number` would also allow fractions.
- `reduce` adds from the left, while `Total` recurses from the front. The two agree over exact reals; with floating point they could differ in the last digits.
- The page component `client/src/pages/Home.tsx` is UI: dialogs, toasts and number formatting. Its input checks (non-negative km, positive interval) are not imposed, because the store itself accepts any number.
- The statistics take the refuels in the order `Chronological` gives. That order is fixed by `StableSortIsSortBy`, but the comparator's behaviour on unparsable dates is not modelled.
