/**
 * What the checker reads: the records the exam-registration service returns,
 * the command-line options, and the clock readings it formats.
 */
module Records {
  import opened Wrappers

  /**
   * A field of a JSON record as `record.get(key)` returns it: None when the
   * key is absent. Identifiers are held in their `str()` form.
   */
  type Field = Option<string>

  /** The field as an f-string or `str()` renders it: an absent value prints as "None". */
  function Render(f: Field): string {
    match f
    case None => "None"
    case Some(s) => s
  }

  /** Python truthiness of a string-or-None value. */
  predicate Truthy(f: Field) {
    f.Some? && f.value != ""
  }

  /** `a or b` on string-or-None values. */
  function OrElse(a: Field, b: Field): Field {
    if Truthy(a) then a else b
  }

  /** An exam session at a location; the seat counts are absent when the service omits them. */
  datatype Slot = Slot(id: Field, name: Field, numberOfSeats: Option<int>, registeredSlots: Option<int>)

  /** `int(slot.get('numberOfSeats', 0))` */
  function Seats(s: Slot): int {
    s.numberOfSeats.GetOr(0)
  }

  /** `int(slot.get('registeredSlots', 0))` */
  function Registered(s: Slot): int {
    s.registeredSlots.GetOr(0)
  }

  /** Seats left in a session: capacity minus registrations, without clamping. */
  function Available(s: Slot): int {
    Seats(s) - Registered(s)
  }

  datatype Location = Location(id: Field, name: Field)

  datatype Batch = Batch(id: Field, name: Field, code: Field, status: Field)

  datatype Period = Period(id: Field)

  /**
   * The service's answers at one moment, keyed by the identifier each request
   * puts in its URL. A key that is missing stands for a request that failed or
   * came back empty: the checker sees no records either way.
   */
  datatype Service = Service(
    periods: seq<Period>,
    batches: map<string, seq<Batch>>,
    locations: map<string, seq<Location>>,
    slots: map<string, seq<Slot>>)

  /** `fetch_batches(period_id)` */
  function BatchesOf(svc: Service, periodId: string): seq<Batch> {
    if periodId in svc.batches then svc.batches[periodId] else []
  }

  /** `fetch_locations(batch_id)` */
  function LocationsOf(svc: Service, batchId: string): seq<Location> {
    if batchId in svc.locations then svc.locations[batchId] else []
  }

  /** The slot request of `check_slots(location_id, ...)`. */
  function SlotsAt(svc: Service, locationId: string): seq<Slot> {
    if locationId in svc.slots then svc.slots[locationId] else []
  }

  /**
   * The readings of the clock during one check: `stamp` is the
   * `now().strftime('%Y-%m-%d %H:%M:%S')` that `_log` puts in front of a
   * line, `listed` the same format read when `check_slots` builds the line of
   * an available session, and `instant` is `str(now())`.
   */
  datatype Clock = Clock(stamp: string, listed: string, instant: string)

  /** The service's answers and the clock during one check. */
  datatype Moment = Moment(service: Service, clock: Clock)

  /** The command-line options the checker acts on. */
  datatype Args = Args(
    batchCode: Field,
    locationId: Field,
    email: string,
    noEmail: bool,
    verbose: bool,
    monitor: bool,
    showBatches: bool,
    allBatches: bool,
    status: string)
}
