/**
 The record store's mutations as functions from the aggregate to its replacement: each
 builds a new MotoData from the old one by copying it and changing one part, as
 useMotoData.ts does with object spread, array append and filter.
 */
module MotoRecord {
  import opened SharedTypes
  import opened Sequences

  /** Distance between scheduled oil changes in a fresh record, in km. */
  const DefaultOilInterval: int := 5000

  /** The aggregate used when nothing has been stored yet. */
  function DefaultData(): (d: MotoData)
    ensures d.refuels == [] && d.oilChanges == []
    ensures d.currentKm == 0 && d.lastOilChangeKm == 0
    ensures d.oilChangeInterval == DefaultOilInterval
  {
    MotoData(0, 0, [], [], DefaultOilInterval)
  }

  /** The store's invariant: ids are unique within each collection. */
  predicate UniqueIds(d: MotoData)
  {
    DistinctKeys(d.refuels, RefuelId) && DistinctKeys(d.oilChanges, OilChangeId)
  }

  /** The caller-supplied fields of a refuel (the refuel without its id). */
  function RefuelFields(r: Refuel): RefuelInput
  {
    RefuelInput(r.date, r.km, r.liters, r.value, r.isFull)
  }

  /** The caller-supplied fields of an oil change (the oil change without its id). */
  function OilChangeFields(o: OilChange): OilChangeInput
  {
    OilChangeInput(o.date, o.km)
  }

  /** `{ ...refuel, id }`: the new refuel carries exactly the input fields and the id. */
  function NewRefuel(input: RefuelInput, id: Id): (r: Refuel)
    ensures r.id == id && RefuelFields(r) == input
  {
    Refuel(id, input.date, input.km, input.liters, input.value, input.isFull)
  }

  /** `{ ...oilChange, id }`: the new oil change carries exactly the input fields and the id. */
  function NewOilChange(input: OilChangeInput, id: Id): (o: OilChange)
    ensures o.id == id && OilChangeFields(o) == input
  {
    OilChange(id, input.date, input.km)
  }

  function SetCurrentKm(d: MotoData, km: int): MotoData
  {
    d.(currentKm := km)
  }

  function AppendRefuel(d: MotoData, r: Refuel): MotoData
  {
    d.(refuels := d.refuels + [r])
  }

  /** Appends `o` and makes its km the last oil-change km, whatever the previous value was. */
  function AppendOilChange(d: MotoData, o: OilChange): MotoData
  {
    d.(oilChanges := d.oilChanges + [o], lastOilChangeKm := o.km)
  }

  function RemoveRefuel(d: MotoData, id: Id): MotoData
  {
    d.(refuels := Without(d.refuels, RefuelId, id))
  }

  /** Removes the oil changes with this id; lastOilChangeKm is left as it was. */
  function RemoveOilChange(d: MotoData, id: Id): MotoData
  {
    d.(oilChanges := Without(d.oilChanges, OilChangeId, id))
  }

  function SetOilChangeInterval(d: MotoData, interval: int): MotoData
  {
    d.(oilChangeInterval := interval)
  }

  // ---------------------------------------------------------------------------
  // The id invariant

  lemma AppendRefuelKeepsUniqueIds(d: MotoData, r: Refuel)
    requires UniqueIds(d)
    requires r.id !in Keys(d.refuels, RefuelId)
    ensures UniqueIds(AppendRefuel(d, r))
  {
    AppendFreshKeepsDistinct(d.refuels, r, RefuelId);
  }

  lemma AppendOilChangeKeepsUniqueIds(d: MotoData, o: OilChange)
    requires UniqueIds(d)
    requires o.id !in Keys(d.oilChanges, OilChangeId)
    ensures UniqueIds(AppendOilChange(d, o))
  {
    AppendFreshKeepsDistinct(d.oilChanges, o, OilChangeId);
  }

  lemma RemoveKeepsUniqueIds(d: MotoData, id: Id)
    requires UniqueIds(d)
    ensures UniqueIds(RemoveRefuel(d, id)) && UniqueIds(RemoveOilChange(d, id))
  {
    WithoutKeepsDistinct(d.refuels, RefuelId, id);
    WithoutKeepsDistinct(d.oilChanges, OilChangeId, id);
  }

  // ---------------------------------------------------------------------------
  // Deletion behaves as a filter

  /** After deleting, a refuel is present exactly when it was present and has another id. */
  lemma RemoveRefuelMembers(d: MotoData, id: Id, r: Refuel)
    ensures r in RemoveRefuel(d, id).refuels <==> r in d.refuels && r.id != id
  {
    WithoutMember(d.refuels, RefuelId, id, r);
  }

  /** After deleting, an oil change is present exactly when it was present and has another id. */
  lemma RemoveOilChangeMembers(d: MotoData, id: Id, o: OilChange)
    ensures o in RemoveOilChange(d, id).oilChanges <==> o in d.oilChanges && o.id != id
  {
    WithoutMember(d.oilChanges, OilChangeId, id, o);
  }

  /** Deleting a refuel id that is not stored changes nothing. */
  lemma RemoveAbsentRefuel(d: MotoData, id: Id)
    requires id !in Keys(d.refuels, RefuelId)
    ensures RemoveRefuel(d, id) == d
  {
    WithoutAbsent(d.refuels, RefuelId, id);
  }

  /** Deleting an oil-change id that is not stored changes nothing. */
  lemma RemoveAbsentOilChange(d: MotoData, id: Id)
    requires id !in Keys(d.oilChanges, OilChangeId)
    ensures RemoveOilChange(d, id) == d
  {
    WithoutAbsent(d.oilChanges, OilChangeId, id);
  }

  /**
   With unique ids, deleting the id of the refuel at position i removes that refuel and only
   it, keeping the order of the others.
   */
  lemma RemoveStoredRefuel(d: MotoData, i: nat)
    requires UniqueIds(d)
    requires i < |d.refuels|
    ensures RemoveRefuel(d, d.refuels[i].id).refuels == d.refuels[..i] + d.refuels[i + 1..]
  {
    WithoutDistinctAt(d.refuels, RefuelId, i);
  }

  /** The same for oil changes. */
  lemma RemoveStoredOilChange(d: MotoData, i: nat)
    requires UniqueIds(d)
    requires i < |d.oilChanges|
    ensures RemoveOilChange(d, d.oilChanges[i].id).oilChanges
         == d.oilChanges[..i] + d.oilChanges[i + 1..]
  {
    WithoutDistinctAt(d.oilChanges, OilChangeId, i);
  }

  // ---------------------------------------------------------------------------
  // Round trips

  /** Adding a refuel under a fresh id and deleting that id restores the aggregate. */
  lemma AddThenRemoveRefuel(d: MotoData, input: RefuelInput, id: Id)
    requires id !in Keys(d.refuels, RefuelId)
    ensures RemoveRefuel(AppendRefuel(d, NewRefuel(input, id)), id) == d
  {
    var r := NewRefuel(input, id);
    WithoutAppend(d.refuels, [r], RefuelId, id);
    WithoutAbsent(d.refuels, RefuelId, id);
  }

  /**
   Adding an oil change under a fresh id and deleting that id restores the aggregate, except
   that lastOilChangeKm keeps the km of the deleted entry.
   */
  lemma AddThenRemoveOilChange(d: MotoData, input: OilChangeInput, id: Id)
    requires id !in Keys(d.oilChanges, OilChangeId)
    ensures RemoveOilChange(AppendOilChange(d, NewOilChange(input, id)), id)
         == d.(lastOilChangeKm := input.km)
  {
    var o := NewOilChange(input, id);
    WithoutAppend(d.oilChanges, [o], OilChangeId, id);
    WithoutAbsent(d.oilChanges, OilChangeId, id);
  }
}
