/**
 The statistics engine of useMotoData.ts as functions of the aggregate. Refuels are first put
 in chronological order (a stable sort by date); the fuel level replays that order, the
 consumption looks at what follows the last full tank, and the remaining figures are totals,
 a clamped distance and the latest dates.
 */
module MotoStatistics {
  import opened SharedTypes
  import opened Sequences
  import opened MotoRecord

  /** The fixed length of a month, in days, used for the distance per month. */
  const DaysPerMonth: real := 30.0

  /** The refuels sorted by date, ties in insertion order. */
  function Chronological(refuels: seq<Refuel>): seq<Refuel>
  {
    SortBy(refuels, RefuelDate)
  }

  /**
   The fuel level after replaying `s` in order: every refuel adds its litres, and a full-tank
   refuel resets the level to its own litres.
   */
  function FuelLevel(s: seq<Refuel>): real
    decreases |s|
  {
    if s == [] then 0.0
    else
      var last := s[|s| - 1];
      var level := FuelLevel(s[..|s| - 1]) + last.liters;
      if last.isFull then last.liters else level
  }

  /** Position k holds the last full-tank refuel of `s`. */
  predicate IsLastFull(s: seq<Refuel>, k: int)
  {
    0 <= k < |s| && s[k].isFull && forall j :: k < j < |s| ==> !s[j].isFull
  }

  /** The index of the last full-tank refuel, or -1 when there is none. */
  function LastFullIndex(s: seq<Refuel>): (k: int)
    ensures -1 <= k < |s|
    ensures k >= 0 ==> IsLastFull(s, k)
    ensures k == -1 ==> forall j :: 0 <= j < |s| ==> !s[j].isFull
    decreases |s|
  {
    if s == [] then -1
    else if s[|s| - 1].isFull then |s| - 1
    else LastFullIndex(s[..|s| - 1])
  }

  /**
   Litres per 100 km since the last full tank: the litres of the refuels after it over the
   km from it to the latest refuel; 0 when there is no full tank, nothing after it, or no
   positive distance.
   */
  function AverageConsumption(s: seq<Refuel>): real
  {
    var k := LastFullIndex(s);
    if 0 <= k < |s| - 1 then
      var kmSinceLastFull := s[|s| - 1].km - s[k].km;
      if kmSinceLastFull > 0 then
        Total(s[k + 1..], RefuelLiters) / kmSinceLastFull as real * 100.0
      else 0.0
    else 0.0
  }

  /**
   The current km over the months between the first and the last refuel of the sorted `s`;
   0 when there are no refuels or no time between them.
   */
  function KmPerMonth(s: seq<Refuel>, currentKm: int): real
  {
    if |s| > 0 then
      var monthsDiff := (s[|s| - 1].date - s[0].date) as real / DaysPerMonth;
      if monthsDiff > 0.0 then currentKm as real / monthsDiff else 0.0
    else 0.0
  }

  /** `Math.max(0, interval - (currentKm - lastOilChangeKm))`. */
  function KmToNextOilChange(d: MotoData): (r: int)
    ensures r >= 0
    ensures d.oilChangeInterval - (d.currentKm - d.lastOilChangeKm) >= 0 ==>
              r == d.oilChangeInterval - (d.currentKm - d.lastOilChangeKm)
    ensures d.oilChangeInterval - (d.currentKm - d.lastOilChangeKm) < 0 ==> r == 0
    ensures d.oilChangeInterval >= 0 && d.currentKm >= d.lastOilChangeKm ==> r <= d.oilChangeInterval
  {
    var remaining := d.oilChangeInterval - (d.currentKm - d.lastOilChangeKm);
    if remaining > 0 then remaining else 0
  }

  /** The date of the last refuel of `sorted`, if any. */
  function LastDate(sorted: seq<Refuel>): Option<Date>
  {
    if |sorted| > 0 then Some(sorted[|sorted| - 1].date) else None
  }

  /** The date of the chronologically last refuel: the greatest refuel date. */
  function LatestRefuelDate(refuels: seq<Refuel>): (r: Option<Date>)
    ensures r.None? <==> refuels == []
    ensures r.Some? ==> (exists x :: x in refuels && x.date == r.value)
    ensures r.Some? ==> forall x :: x in refuels ==> x.date <= r.value
  {
    if refuels == [] then None
    else
      SortByEnds(refuels, RefuelDate);
      LastDate(Chronological(refuels))
  }

  /** The date of the first oil change in descending date order: the greatest oil-change date. */
  function LatestOilChangeDate(oilChanges: seq<OilChange>): (r: Option<Date>)
    ensures r.None? <==> oilChanges == []
    ensures r.Some? ==> (exists x :: x in oilChanges && x.date == r.value)
    ensures r.Some? ==> forall x :: x in oilChanges ==> x.date <= r.value
  {
    if |oilChanges| > 0 then
      SortByEnds(oilChanges, OilChangeDateDescending);
      Some(SortBy(oilChanges, OilChangeDateDescending)[0].date)
    else
      None
  }

  /** The summary calculateStatistics returns for the aggregate `d`. */
  function StatisticsOf(d: MotoData): Statistics
  {
    StatisticsOver(d, Chronological(d.refuels))
  }

  /** The summary of `d` once its refuels have been put in the order `sorted`. */
  function StatisticsOver(d: MotoData, sorted: seq<Refuel>): Statistics
  {
    Statistics(
      totalKm := d.currentKm,
      totalRefuels := |d.refuels|,
      totalLiters := Total(d.refuels, RefuelLiters),
      totalSpent := Total(d.refuels, RefuelValue),
      averageConsumption := AverageConsumption(sorted),
      currentFuelLevel := FuelLevel(sorted),
      kmToNextOilChange := KmToNextOilChange(d),
      kmPerMonth := KmPerMonth(sorted, d.currentKm),
      lastRefuelDate := LastDate(sorted),
      lastOilChangeDate := LatestOilChangeDate(d.oilChanges))
  }

  // ---------------------------------------------------------------------------
  // The chronological order

  /**
   The chronological sequence is a permutation of the refuels, ordered by date, and refuels
   of the same date keep their insertion order.
   */
  lemma ChronologicalOrder(refuels: seq<Refuel>, day: Date)
    ensures multiset(Chronological(refuels)) == multiset(refuels)
    ensures forall i, j :: 0 <= i < j < |Chronological(refuels)| ==>
              Chronological(refuels)[i].date <= Chronological(refuels)[j].date
    ensures WithKey(Chronological(refuels), RefuelDate, day) == WithKey(refuels, RefuelDate, day)
  {
    SortByStable(refuels, RefuelDate, day);
  }

  // ---------------------------------------------------------------------------
  // Fuel level

  /** Without a full tank the fuel level is the sum of all litres. */
  lemma {:induction false} FuelLevelWithoutFull(s: seq<Refuel>)
    requires forall j :: 0 <= j < |s| ==> !s[j].isFull
    ensures FuelLevel(s) == Total(s, RefuelLiters)
    decreases |s|
  {
    if s != [] {
      var init, last := s[..|s| - 1], s[|s| - 1];
      assert s == init + [last];
      FuelLevelWithoutFull(init);
      TotalAppend(init, [last], RefuelLiters);
    }
  }

  /**
   With a full tank at k and none after it, the fuel level is the litres of that refuel plus
   the litres of every refuel after it.
   */
  lemma {:induction false} FuelLevelAfterLastFull(s: seq<Refuel>, k: int)
    requires IsLastFull(s, k)
    ensures FuelLevel(s) == s[k].liters + Total(s[k + 1..], RefuelLiters)
    decreases |s|
  {
    var init, last := s[..|s| - 1], s[|s| - 1];
    if k < |s| - 1 {
      assert IsLastFull(init, k);
      FuelLevelAfterLastFull(init, k);
      assert s[k + 1..] == init[k + 1..] + [last];
      TotalAppend(init[k + 1..], [last], RefuelLiters);
    }
  }

  /**
   A refuel dated no earlier than every stored one goes to the end of the chronological
   sequence.
   */
  lemma ChronologicalAppendLatest(refuels: seq<Refuel>, r: Refuel)
    requires forall x :: x in refuels ==> x.date <= r.date
    ensures Chronological(refuels + [r]) == Chronological(refuels) + [r]
  {
    var s := refuels + [r];
    assert s[..|s| - 1] == refuels;
    if refuels != [] {
      SortByEndsIn(refuels, RefuelDate);
    }
  }

  /**
   Logging a refuel dated no earlier than every stored one either resets the fuel level to
   its litres (full tank) or raises the level by them.
   */
  lemma FuelLevelAfterLatestRefuel(refuels: seq<Refuel>, r: Refuel)
    requires forall x :: x in refuels ==> x.date <= r.date
    ensures FuelLevel(Chronological(refuels + [r]))
         == if r.isFull then r.liters else FuelLevel(Chronological(refuels)) + r.liters
  {
    ChronologicalAppendLatest(refuels, r);
    var t := Chronological(refuels) + [r];
    assert t[..|t| - 1] == Chronological(refuels);
  }

  // ---------------------------------------------------------------------------
  // Average consumption

  /** LastFullIndex finds the one position that holds the last full tank. */
  lemma LastFullIndexIsLastFull(s: seq<Refuel>, k: int)
    requires IsLastFull(s, k)
    ensures LastFullIndex(s) == k
  {
  }

  /** Without any full tank there is no consumption figure. */
  lemma ConsumptionWithoutFull(s: seq<Refuel>)
    requires forall j :: 0 <= j < |s| ==> !s[j].isFull
    ensures AverageConsumption(s) == 0.0
  {
  }

  /**
   With the last full tank at k: the consumption is the litres after k per 100 km driven
   from k to the latest refuel, when some refuel follows k and that distance is positive;
   otherwise it is 0.
   */
  lemma ConsumptionSinceLastFull(s: seq<Refuel>, k: int)
    requires IsLastFull(s, k)
    ensures AverageConsumption(s)
         == if k < |s| - 1 && s[|s| - 1].km - s[k].km > 0
            then Total(s[k + 1..], RefuelLiters) / (s[|s| - 1].km - s[k].km) as real * 100.0
            else 0.0
  {
    LastFullIndexIsLastFull(s, k);
  }

  // ---------------------------------------------------------------------------
  // Distance per month and totals

  /** The chronological sequence starts at the earliest date and ends at the latest. */
  lemma ChronologicalEnds(refuels: seq<Refuel>, earliest: Refuel, latest: Refuel)
    requires earliest in refuels && latest in refuels
    requires forall x :: x in refuels ==> earliest.date <= x.date <= latest.date
    ensures |Chronological(refuels)| == |refuels|
    ensures Chronological(refuels)[0].date == earliest.date
    ensures Chronological(refuels)[|refuels| - 1].date == latest.date
  {
    SortByEndsIn(refuels, RefuelDate);
    SortByBounds(refuels, RefuelDate, earliest);
    SortByBounds(refuels, RefuelDate, latest);
  }

  /**
   Over the refuels, the distance per month is the current km over the months between the
   earliest and the latest refuel date, and 0 when those dates coincide.
   */
  lemma KmPerMonthSpan(refuels: seq<Refuel>, currentKm: int, earliest: Refuel, latest: Refuel)
    requires earliest in refuels && latest in refuels
    requires forall x :: x in refuels ==> earliest.date <= x.date <= latest.date
    ensures KmPerMonth(Chronological(refuels), currentKm)
         == if latest.date > earliest.date
            then currentKm as real / ((latest.date - earliest.date) as real / DaysPerMonth)
            else 0.0
  {
    ChronologicalEnds(refuels, earliest, latest);
    var s := Chronological(refuels);
    var monthsDiff := (latest.date - earliest.date) as real / DaysPerMonth;
    assert monthsDiff > 0.0 <==> latest.date > earliest.date;
    assert KmPerMonth(s, currentKm) == if monthsDiff > 0.0 then currentKm as real / monthsDiff else 0.0;
  }

  lemma KmPerMonthWithoutRefuels(currentKm: int)
    ensures KmPerMonth(Chronological([]), currentKm) == 0.0
  {
  }

  /** Totals over the refuels do not depend on the order the refuels are stored in. */
  lemma TotalsIgnoreOrder(d: MotoData, refuels: seq<Refuel>)
    requires multiset(refuels) == multiset(d.refuels)
    ensures StatisticsOf(d.(refuels := refuels)).totalRefuels == StatisticsOf(d).totalRefuels
    ensures StatisticsOf(d.(refuels := refuels)).totalLiters == StatisticsOf(d).totalLiters
    ensures StatisticsOf(d.(refuels := refuels)).totalSpent == StatisticsOf(d).totalSpent
    ensures Total(Chronological(d.refuels), RefuelLiters) == StatisticsOf(d).totalLiters
  {
    assert |refuels| == |multiset(refuels)| == |multiset(d.refuels)| == |d.refuels|;
    TotalPermutation(refuels, d.refuels, RefuelLiters);
    TotalPermutation(refuels, d.refuels, RefuelValue);
    TotalPermutation(Chronological(d.refuels), d.refuels, RefuelLiters);
  }

  // ---------------------------------------------------------------------------
  // The statistics under each mutation

  lemma EmptyRecordStatistics(d: MotoData)
    requires d.refuels == [] && d.oilChanges == []
    ensures StatisticsOf(d).currentFuelLevel == 0.0 && StatisticsOf(d).averageConsumption == 0.0
    ensures StatisticsOf(d).kmPerMonth == 0.0 && StatisticsOf(d).totalRefuels == 0
    ensures StatisticsOf(d).totalLiters == 0.0 && StatisticsOf(d).totalSpent == 0.0
    ensures StatisticsOf(d).lastRefuelDate == None && StatisticsOf(d).lastOilChangeDate == None
  {
  }

  /** Updating the current km changes only totalKm, the distance per month and the oil projection. */
  lemma SetCurrentKmStatistics(d: MotoData, km: int)
    ensures StatisticsOf(SetCurrentKm(d, km))
         == StatisticsOf(d).(totalKm := km,
                             kmPerMonth := KmPerMonth(Chronological(d.refuels), km),
                             kmToNextOilChange := KmToNextOilChange(d.(currentKm := km)))
  {
  }

  /** Setting the interval changes only the oil projection. */
  lemma SetOilChangeIntervalStatistics(d: MotoData, interval: int)
    ensures StatisticsOf(SetOilChangeInterval(d, interval))
         == StatisticsOf(d).(kmToNextOilChange := KmToNextOilChange(d.(oilChangeInterval := interval)))
  {
  }

  /** The count and the sums of the summary are taken over the refuels as stored. */
  lemma StatisticsTotals(d: MotoData)
    ensures StatisticsOf(d).totalKm == d.currentKm
    ensures StatisticsOf(d).totalRefuels == |d.refuels|
    ensures StatisticsOf(d).totalLiters == Total(d.refuels, RefuelLiters)
    ensures StatisticsOf(d).totalSpent == Total(d.refuels, RefuelValue)
  {
  }

  /** Adding a refuel counts it once and adds its litres and value to the totals. */
  lemma AppendRefuelTotals(d: MotoData, r: Refuel)
    ensures StatisticsOf(AppendRefuel(d, r)).totalRefuels == StatisticsOf(d).totalRefuels + 1
    ensures StatisticsOf(AppendRefuel(d, r)).totalLiters == StatisticsOf(d).totalLiters + r.liters
    ensures StatisticsOf(AppendRefuel(d, r)).totalSpent == StatisticsOf(d).totalSpent + r.value
  {
    StatisticsTotals(d);
    StatisticsTotals(AppendRefuel(d, r));
    TotalAppend(d.refuels, [r], RefuelLiters);
    TotalAppend(d.refuels, [r], RefuelValue);
    TotalSingleton(r, RefuelLiters);
    TotalSingleton(r, RefuelValue);
  }

  /** A new refuel is inserted into the chronological sequence after every refuel of its date or earlier. */
  lemma ChronologicalAppend(refuels: seq<Refuel>, r: Refuel)
    ensures Chronological(refuels + [r]) == Insert(Chronological(refuels), r, RefuelDate)
  {
    var s := refuels + [r];
    assert s[..|s| - 1] == refuels;
    assert s[|s| - 1] == r;
  }

  /**
   After addRefuel every figure is computed over the old chronological sequence with the new
   refuel inserted after all refuels of its date or earlier.
   */
  lemma AppendRefuelStatistics(d: MotoData, r: Refuel)
    ensures StatisticsOf(AppendRefuel(d, r))
         == StatisticsOver(AppendRefuel(d, r), Insert(Chronological(d.refuels), r, RefuelDate))
  {
    ChronologicalAppend(d.refuels, r);
  }

  /**
   A refuel dated no earlier than every stored one (the usual case: it is logged on the day
   it happens) goes last: every figure is computed over the old chronological sequence plus
   the new refuel, and the last refuel date becomes its date.
   */
  lemma AppendLatestRefuelStatistics(d: MotoData, r: Refuel)
    requires forall x :: x in d.refuels ==> x.date <= r.date
    ensures StatisticsOf(AppendRefuel(d, r))
         == StatisticsOver(AppendRefuel(d, r), Chronological(d.refuels) + [r])
    ensures StatisticsOf(AppendRefuel(d, r)).lastRefuelDate == Some(r.date)
  {
    ChronologicalAppendLatest(d.refuels, r);
  }

  /** Taking out the element at position i takes its litres and value off the sums. */
  lemma TotalsWithoutAt(s: seq<Refuel>, i: nat)
    requires i < |s|
    ensures Total(s[..i] + s[i + 1..], RefuelLiters) == Total(s, RefuelLiters) - s[i].liters
    ensures Total(s[..i] + s[i + 1..], RefuelValue) == Total(s, RefuelValue) - s[i].value
  {
    TotalRemoveAt(s, i, RefuelLiters);
    TotalRemoveAt(s, i, RefuelValue);
  }

  /** With unique ids, deleting a stored refuel takes exactly its litres and value off the totals. */
  lemma RemoveStoredRefuelTotals(d: MotoData, i: nat)
    requires UniqueIds(d)
    requires i < |d.refuels|
    ensures StatisticsOf(RemoveRefuel(d, d.refuels[i].id)).totalRefuels == StatisticsOf(d).totalRefuels - 1
    ensures StatisticsOf(RemoveRefuel(d, d.refuels[i].id)).totalLiters
         == StatisticsOf(d).totalLiters - d.refuels[i].liters
    ensures StatisticsOf(RemoveRefuel(d, d.refuels[i].id)).totalSpent
         == StatisticsOf(d).totalSpent - d.refuels[i].value
  {
    var s := d.refuels;
    RemoveStoredRefuel(d, i);
    StatisticsTotals(d);
    StatisticsTotals(RemoveRefuel(d, s[i].id));
    TotalsWithoutAt(s, i);
  }

  /** An oil change leaves every refuel figure alone; the oil projection restarts from its km. */
  lemma AppendOilChangeStatistics(d: MotoData, o: OilChange)
    ensures StatisticsOf(AppendOilChange(d, o))
         == StatisticsOf(d).(kmToNextOilChange := KmToNextOilChange(d.(lastOilChangeKm := o.km)),
                             lastOilChangeDate := LatestOilChangeDate(d.oilChanges + [o]))
  {
  }

  /** The summary reports as last refuel date the greatest refuel date, or none without refuels. */
  lemma LastRefuelDateIsLatest(d: MotoData)
    ensures StatisticsOf(d).lastRefuelDate == LatestRefuelDate(d.refuels)
    ensures StatisticsOf(d).lastRefuelDate.None? <==> d.refuels == []
    ensures StatisticsOf(d).lastRefuelDate.Some? ==>
              forall x :: x in d.refuels ==> x.date <= StatisticsOf(d).lastRefuelDate.value
  {
  }

  /** Deleting refuels by id keeps the chronological order of the remaining ones. */
  lemma ChronologicalWithout(refuels: seq<Refuel>, id: Id)
    ensures Chronological(Without(refuels, RefuelId, id)) == Without(Chronological(refuels), RefuelId, id)
  {
    SortByWithout(refuels, RefuelDate, RefuelId, id);
  }

  /**
   After deleteRefuel every figure is computed over the old chronological sequence with the
   deleted refuels filtered out: the remaining refuels are neither reordered nor changed.
   */
  lemma RemoveRefuelStatistics(d: MotoData, id: Id)
    ensures StatisticsOf(RemoveRefuel(d, id))
         == StatisticsOver(RemoveRefuel(d, id), Without(Chronological(d.refuels), RefuelId, id))
  {
    ChronologicalWithout(d.refuels, id);
  }

  /**
   deleteOilChange moves only the last oil-change date; the oil projection keeps counting
   from lastOilChangeKm even when the deleted entry is the one that set it.
   */
  lemma RemoveOilChangeStatistics(d: MotoData, id: Id)
    ensures StatisticsOf(RemoveOilChange(d, id))
         == StatisticsOf(d).(lastOilChangeDate := LatestOilChangeDate(Without(d.oilChanges, OilChangeId, id)))
  {
  }

  /** Adding a refuel and deleting it again gives back the same statistics. */
  lemma AddThenRemoveRefuelStatistics(d: MotoData, input: RefuelInput, id: Id)
    requires id !in Keys(d.refuels, RefuelId)
    ensures StatisticsOf(RemoveRefuel(AppendRefuel(d, NewRefuel(input, id)), id)) == StatisticsOf(d)
  {
    AddThenRemoveRefuel(d, input, id);
  }

  /**
   Adding an oil change and deleting it again gives back the same statistics except the oil
   projection, which still counts from the deleted entry's km.
   */
  lemma AddThenRemoveOilChangeStatistics(d: MotoData, input: OilChangeInput, id: Id)
    requires id !in Keys(d.oilChanges, OilChangeId)
    ensures StatisticsOf(RemoveOilChange(AppendOilChange(d, NewOilChange(input, id)), id))
         == StatisticsOf(d).(kmToNextOilChange := KmToNextOilChange(d.(lastOilChangeKm := input.km)))
  {
    AddThenRemoveOilChange(d, input, id);
  }

  // ---------------------------------------------------------------------------
  // Worked examples

  /**
   A partial 8 L refuel at 1200 km on 2024-02-01 stored before a full 10 L tank at 1000 km on
   2024-01-01: 18 L in the tank, 4 L/100 km, the later date as the last refuel date, and
   3800 km left of the default oil interval.
   */
  lemma FullThenPartialExample(d: MotoData, a: Refuel, b: Refuel)
    requires a.date == 19754 && a.km == 1200 && a.liters == 8.0 && !a.isFull
    requires b.date == 19723 && b.km == 1000 && b.liters == 10.0 && b.isFull
    requires d.refuels == [a, b] && d.currentKm == 1200
    requires d.lastOilChangeKm == 0 && d.oilChangeInterval == DefaultOilInterval
    ensures StatisticsOf(d).currentFuelLevel == 18.0
    ensures StatisticsOf(d).averageConsumption == 4.0
    ensures StatisticsOf(d).lastRefuelDate == Some(19754)
    ensures StatisticsOf(d).totalLiters == 18.0
    ensures StatisticsOf(d).kmToNextOilChange == 3800
  {
    FullThenPartialFigures(d.refuels, a, b);
  }

  /** The refuel figures of the example above, over its two refuels. */
  lemma FullThenPartialFigures(refuels: seq<Refuel>, a: Refuel, b: Refuel)
    requires a.date == 19754 && a.km == 1200 && a.liters == 8.0 && !a.isFull
    requires b.date == 19723 && b.km == 1000 && b.liters == 10.0 && b.isFull
    requires refuels == [a, b]
    ensures FuelLevel(Chronological(refuels)) == 18.0
    ensures AverageConsumption(Chronological(refuels)) == 4.0
    ensures LastDate(Chronological(refuels)) == Some(19754)
    ensures Total(refuels, RefuelLiters) == 18.0
  {
    SwappedPairSorts(a, b);
    FullThenPartialSorted(a, b);
    TotalOfPair(a, b);
  }

  /** The fuel level and consumption over the two refuels of the example in date order. */
  lemma FullThenPartialSorted(a: Refuel, b: Refuel)
    requires a.km == 1200 && a.liters == 8.0 && !a.isFull
    requires b.km == 1000 && b.liters == 10.0 && b.isFull
    ensures FuelLevel([b, a]) == 18.0
    ensures AverageConsumption([b, a]) == 4.0
  {
    var s := [b, a];
    assert IsLastFull(s, 0);
    assert s[1..] == [a];
    TotalSingleton(a, RefuelLiters);
    FuelLevelAfterLastFull(s, 0);
    ConsumptionSinceLastFull(s, 0);
  }

  /** The litres of two refuels. */
  lemma TotalOfPair(a: Refuel, b: Refuel)
    ensures Total([a, b], RefuelLiters) == a.liters + b.liters
  {
    assert [a, b][1..] == [b];
    TotalSingleton(b, RefuelLiters);
  }

  /** Two refuels stored latest first come out earliest first. */
  lemma SwappedPairSorts(a: Refuel, b: Refuel)
    requires b.date < a.date
    ensures Chronological([a, b]) == [b, a]
  {
    assert [a, b][..1] == [a];
  }

  /** A single full refuel: the tank holds its litres and there is no consumption figure yet. */
  lemma SingleFullRefuelExample(d: MotoData, a: Refuel)
    requires a.liters == 12.0 && a.isFull
    requires d.refuels == [a]
    ensures StatisticsOf(d).currentFuelLevel == 12.0
    ensures StatisticsOf(d).averageConsumption == 0.0
    ensures StatisticsOf(d).kmPerMonth == 0.0
  {
    assert [a][..0] == [];
    assert Chronological([a]) == [a];
  }

  /** 4800 km driven since the last oil change leaves 200 km; 5200 km is past due and gives 0. */
  lemma OilChangeDueExample()
    ensures KmToNextOilChange(MotoData(4800, 0, [], [], 5000)) == 200
    ensures KmToNextOilChange(MotoData(5200, 0, [], [], 5000)) == 0
  {
  }

  /** Two refuels stored in date order stay in that order. */
  lemma OrderedPairSorts(a: Refuel, b: Refuel)
    requires a.date <= b.date
    ensures Chronological([a, b]) == [a, b]
  {
    assert [a, b][..1] == [a];
  }

  /** Refuels on 2024-01-01 and 2024-01-31 with 300 km on the odometer give 300 km per month. */
  lemma KmPerMonthExample(d: MotoData, a: Refuel, b: Refuel)
    requires a.date == 19723 && b.date == 19753
    requires d.refuels == [a, b] && d.currentKm == 300
    ensures StatisticsOf(d).kmPerMonth == 300.0
  {
    KmPerMonthOfPair(d.refuels, a, b);
  }

  /** The distance per month of the example above, over its two refuels. */
  lemma KmPerMonthOfPair(refuels: seq<Refuel>, a: Refuel, b: Refuel)
    requires a.date == 19723 && b.date == 19753
    requires refuels == [a, b]
    ensures KmPerMonth(Chronological(refuels), 300) == 300.0
  {
    OrderedPairSorts(a, b);
    assert ([a, b][1].date - [a, b][0].date) as real / DaysPerMonth == 1.0;
  }
}
