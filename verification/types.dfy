/**
 The record shapes shared by the tracker: one refuel, one oil change, the single
 persisted aggregate and the derived statistics summary.

 Identifiers are strings, as stored. A calendar date "YYYY-MM-DD" is represented by its
 day number (days since 1970-01-01, UTC): the tracker only ever compares dates and
 subtracts them, and the day number is ordered and spaced like the millisecond time
 stamp of that date at midnight UTC.
 */
module SharedTypes {

  datatype Option<+T> = None | Some(value: T)

  type Id = string

  /** Day number of a calendar date. */
  type Date = int

  datatype Refuel = Refuel(id: Id, date: Date, km: int, liters: real, value: real, isFull: bool)

  /** A refuel as the caller supplies it, before an id is assigned. */
  datatype RefuelInput = RefuelInput(date: Date, km: int, liters: real, value: real, isFull: bool)

  datatype OilChange = OilChange(id: Id, date: Date, km: int)

  /** An oil change as the caller supplies it, before an id is assigned. */
  datatype OilChangeInput = OilChangeInput(date: Date, km: int)

  /** The single aggregate that is read at start-up and replaced by every mutation. */
  datatype MotoData = MotoData(
    currentKm: int,
    lastOilChangeKm: int,
    refuels: seq<Refuel>,
    oilChanges: seq<OilChange>,
    oilChangeInterval: int)

  /** The read-only summary derived from a MotoData. */
  datatype Statistics = Statistics(
    totalKm: int,
    totalRefuels: nat,
    totalLiters: real,
    totalSpent: real,
    averageConsumption: real,   // litres per 100 km
    currentFuelLevel: real,     // litres
    kmToNextOilChange: int,
    kmPerMonth: real,
    lastRefuelDate: Option<Date>,
    lastOilChangeDate: Option<Date>)

  // Field accessors, used as key and weight functions by the sequence operations.

  function RefuelId(r: Refuel): Id { r.id }

  function RefuelDate(r: Refuel): Date { r.date }

  function RefuelLiters(r: Refuel): real { r.liters }

  function RefuelValue(r: Refuel): real { r.value }

  function OilChangeId(o: OilChange): Id { o.id }

  /** The key of a descending sort by date. */
  function OilChangeDateDescending(o: OilChange): int { -o.date }
}
