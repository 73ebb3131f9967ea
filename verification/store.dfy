/**
 The record store: one object holding the current aggregate. Every mutation computes the
 replacement aggregate and stores it in place of the old one (the persisted copy is written
 alongside; that write is not modelled). CalculateStatistics derives the summary from the
 aggregate it holds, step by step, and is proved to give StatisticsOf(data).
 */
module Store {
  import opened SharedTypes
  import opened Sequences
  import opened MotoRecord
  import opened MotoStatistics

  class MotoStore {
    var data: MotoData

    /** Ids stay unique within each collection. */
    ghost predicate Valid()
      reads this
    {
      UniqueIds(data)
    }

    /** Start-up with nothing stored: the default aggregate. */
    constructor ()
      ensures Valid()
      ensures data == DefaultData()
    {
      data := DefaultData();
    }

    method UpdateCurrentKm(km: int)
      requires Valid()
      modifies this
      ensures Valid()
      ensures data == old(data).(currentKm := km)
    {
      data := SetCurrentKm(data, km);
    }

    /** Appends a refuel under the fresh id `id` and returns it. */
    method AddRefuel(input: RefuelInput, id: Id) returns (r: Refuel)
      requires Valid()
      requires id !in Keys(data.refuels, RefuelId)
      modifies this
      ensures Valid()
      ensures r.id == id && RefuelFields(r) == input
      ensures data == old(data).(refuels := old(data).refuels + [r])
    {
      r := NewRefuel(input, id);
      AppendRefuelKeepsUniqueIds(data, r);
      data := AppendRefuel(data, r);
    }

    /**
     Appends an oil change under the fresh id `id`, makes its km the last oil-change km
     (even when that is lower than before) and returns it.
     */
    method AddOilChange(input: OilChangeInput, id: Id) returns (o: OilChange)
      requires Valid()
      requires id !in Keys(data.oilChanges, OilChangeId)
      modifies this
      ensures Valid()
      ensures o.id == id && OilChangeFields(o) == input
      ensures data == old(data).(oilChanges := old(data).oilChanges + [o], lastOilChangeKm := input.km)
    {
      o := NewOilChange(input, id);
      AppendOilChangeKeepsUniqueIds(data, o);
      data := AppendOilChange(data, o);
    }

    /** Drops every refuel with this id, keeping the others in order; an unknown id is a no-op. */
    method DeleteRefuel(id: Id)
      requires Valid()
      modifies this
      ensures Valid()
      ensures data == old(data).(refuels := Without(old(data).refuels, RefuelId, id))
      ensures id !in Keys(data.refuels, RefuelId)
    {
      RemoveKeepsUniqueIds(data, id);
      data := RemoveRefuel(data, id);
    }

    /** Drops every oil change with this id; lastOilChangeKm is not recomputed. */
    method DeleteOilChange(id: Id)
      requires Valid()
      modifies this
      ensures Valid()
      ensures data == old(data).(oilChanges := Without(old(data).oilChanges, OilChangeId, id))
      ensures data.lastOilChangeKm == old(data).lastOilChangeKm
      ensures id !in Keys(data.oilChanges, OilChangeId)
    {
      RemoveKeepsUniqueIds(data, id);
      data := RemoveOilChange(data, id);
    }

    method SetOilChangeInterval(interval: int)
      requires Valid()
      modifies this
      ensures Valid()
      ensures data == old(data).(oilChangeInterval := interval)
    {
      data := MotoRecord.SetOilChangeInterval(data, interval);
    }

    /** The statistics of the held aggregate, computed as calculateStatistics does. */
    method CalculateStatistics() returns (st: Statistics)
      ensures st == StatisticsOf(data)
    {
      st := ComputeStatistics(data, Chronological(data.refuels));
    }
  }

  /** The body of calculateStatistics once the refuels are in chronological order. */
  method ComputeStatistics(d: MotoData, sorted: seq<Refuel>) returns (st: Statistics)
    ensures st == StatisticsOver(d, sorted)
  {
    var currentFuelLevel := ReplayFuelLevel(sorted);
    var lastFullRefuelIndex := FindLastFull(sorted);
    var averageConsumption := ComputeAverageConsumption(sorted, lastFullRefuelIndex);
    var kmPerMonth := ComputeKmPerMonth(sorted, d.currentKm);
    st := Statistics(
      totalKm := d.currentKm,
      totalRefuels := |d.refuels|,
      totalLiters := Total(d.refuels, RefuelLiters),
      totalSpent := Total(d.refuels, RefuelValue),
      averageConsumption := averageConsumption,
      currentFuelLevel := currentFuelLevel,
      kmToNextOilChange := KmToNextOilChange(d),
      kmPerMonth := kmPerMonth,
      lastRefuelDate := if |sorted| > 0 then Some(sorted[|sorted| - 1].date) else None,
      lastOilChangeDate := LatestOilChangeDate(d.oilChanges));
  }

  /**
   Litres per 100 km since the last full tank, given its index (-1 when there is none):
   the litres after it over the km from it to the latest refuel.
   */
  method ComputeAverageConsumption(sorted: seq<Refuel>, lastFullRefuelIndex: int)
    returns (averageConsumption: real)
    requires lastFullRefuelIndex == LastFullIndex(sorted)
    ensures averageConsumption == AverageConsumption(sorted)
  {
    var totalKmSinceLastFull := 0;
    var totalLitersSinceLastFull := 0.0;
    if lastFullRefuelIndex >= 0 && lastFullRefuelIndex < |sorted| - 1 {
      var lastFullRefuel := sorted[lastFullRefuelIndex];
      var lastRefuel := sorted[|sorted| - 1];
      totalKmSinceLastFull := lastRefuel.km - lastFullRefuel.km;
      totalLitersSinceLastFull := Total(sorted[lastFullRefuelIndex + 1..], RefuelLiters);
    }
    averageConsumption := 0.0;
    if totalKmSinceLastFull > 0 {
      averageConsumption := totalLitersSinceLastFull / totalKmSinceLastFull as real * 100.0;
    }
  }

  /** Replays the chronological refuels; a full tank resets the level to its own litres. */
  method ReplayFuelLevel(sorted: seq<Refuel>) returns (currentFuelLevel: real)
    ensures currentFuelLevel == FuelLevel(sorted)
  {
    currentFuelLevel := 0.0;
    for i := 0 to |sorted|
      invariant currentFuelLevel == FuelLevel(sorted[..i])
    {
      assert sorted[..i + 1][..i] == sorted[..i];
      currentFuelLevel := currentFuelLevel + sorted[i].liters;
      if sorted[i].isFull {
        currentFuelLevel := sorted[i].liters;
      }
    }
    assert sorted[..|sorted|] == sorted;
  }

  /** The current km over the months from the first to the last chronological refuel. */
  method ComputeKmPerMonth(sorted: seq<Refuel>, currentKm: int) returns (kmPerMonth: real)
    ensures kmPerMonth == KmPerMonth(sorted, currentKm)
  {
    kmPerMonth := 0.0;
    if |sorted| > 0 {
      var monthsDiff := (sorted[|sorted| - 1].date - sorted[0].date) as real / DaysPerMonth;
      if monthsDiff > 0.0 {
        kmPerMonth := currentKm as real / monthsDiff;
      }
    }
  }

  /** Searches backwards for the last full tank; -1 when there is none. */
  method FindLastFull(sorted: seq<Refuel>) returns (lastFullRefuelIndex: int)
    ensures lastFullRefuelIndex == LastFullIndex(sorted)
    ensures lastFullRefuelIndex >= 0 ==> IsLastFull(sorted, lastFullRefuelIndex)
    ensures lastFullRefuelIndex == -1 ==> forall j :: 0 <= j < |sorted| ==> !sorted[j].isFull
  {
    lastFullRefuelIndex := -1;
    var i := |sorted| - 1;
    while i >= 0
      invariant -1 <= i < |sorted|
      invariant lastFullRefuelIndex == -1
      invariant forall j :: i < j < |sorted| ==> !sorted[j].isFull
    {
      if sorted[i].isFull {
        lastFullRefuelIndex := i;
        break;
      }
      i := i - 1;
    }
    if lastFullRefuelIndex >= 0 {
      LastFullIndexIsLastFull(sorted, lastFullRefuelIndex);
    }
  }
}
