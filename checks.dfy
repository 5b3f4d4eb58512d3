/**
 * What one check of the exam-registration service writes and decides, as
 * functions of the service's answers: the lines appended to the result log,
 * whether sessions were found, and the alerts sent. The `Checker` class
 * computes the same things with loops and is proved to agree with these
 * functions.
 */
module Checks {
  import opened Wrappers
  import opened PyStr
  import opened Records
  import opened Logging
  import opened Messages
  import opened Notify
  import opened SuccessLines

  /** The elements of `xs` that pass `p`, in their order (a list comprehension with a filter). */
  function Keep<T>(xs: seq<T>, p: T -> bool): (r: seq<T>)
    ensures |r| <= |xs|
  {
    if xs == [] then []
    else
      var init := xs[..|xs| - 1];
      var last := xs[|xs| - 1];
      if p(last) then Keep(init, p) + [last] else Keep(init, p)
  }

  /** Only elements of `xs` that pass `p` are kept. */
  lemma {:induction false} KeepSound<T>(xs: seq<T>, p: T -> bool, x: T)
    requires x in Keep(xs, p)
    ensures x in xs && p(x)
  {
    var init := xs[..|xs| - 1];
    var last := xs[|xs| - 1];
    if x in Keep(init, p) {
      KeepSound(init, p, x);
    }
  }

  /** Each value is kept as often as it occurs in `xs` when it passes `p`, and not at all otherwise. */
  lemma {:induction false} KeepCount<T>(xs: seq<T>, p: T -> bool, x: T)
    ensures multiset(Keep(xs, p))[x] == if p(x) then multiset(xs)[x] else 0
  {
    if xs != [] {
      var init := xs[..|xs| - 1];
      var last := xs[|xs| - 1];
      KeepCount(init, p, x);
      assert xs == init + [last];
      assert multiset(xs) == multiset(init) + multiset{last};
    }
  }

  /** Nothing is kept exactly when nothing passes. */
  lemma KeepEmpty<T>(xs: seq<T>, p: T -> bool)
    ensures Keep(xs, p) == [] <==> forall i :: 0 <= i < |xs| ==> !p(xs[i])
  {
    if Keep(xs, p) == [] {
      forall i | 0 <= i < |xs| ensures !p(xs[i]) {
        KeepCount(xs, p, xs[i]);
        assert xs[i] in multiset(xs);
      }
    } else {
      var x := Keep(xs, p)[0];
      KeepSound(xs, p, x);
      var i :| 0 <= i < |xs| && xs[i] == x;
    }
  }

  /** Index `i` holds the first element of `xs` that passes `p`. */
  predicate FirstPassing<T>(xs: seq<T>, p: T -> bool, i: nat) {
    i < |xs| && p(xs[i]) && forall j :: 0 <= j < i ==> !p(xs[j])
  }

  /** The index of the first element that passes `p` (a `for` loop that stops at the first match). */
  function First<T>(xs: seq<T>, p: T -> bool): (r: Option<nat>)
    ensures r.Some? ==> FirstPassing(xs, p, r.value)
    ensures r.None? ==> forall j :: 0 <= j < |xs| ==> !p(xs[j])
  {
    if xs == [] then None
    else
      var init := xs[..|xs| - 1];
      assert forall j :: 0 <= j < |init| ==> init[j] == xs[j];
      match First(init, p)
      case Some(i) => Some(i)
      case None => if p(xs[|xs| - 1]) then Some(|xs| - 1) else None
  }

  /** The first element kept is the first element that passes. */
  lemma {:induction false} KeepFirst<T>(xs: seq<T>, p: T -> bool)
    ensures Keep(xs, p) != [] <==> First(xs, p).Some?
    ensures Keep(xs, p) != [] ==> Keep(xs, p)[0] == xs[First(xs, p).value]
  {
    if xs != [] {
      var init := xs[..|xs| - 1];
      KeepFirst(init, p);
      if Keep(init, p) != [] {
        assert init[First(init, p).value] == xs[First(init, p).value];
      }
    }
  }

  /** The positions of the elements of `xs` that pass `p`, in increasing order. */
  function Passing<T>(xs: seq<T>, p: T -> bool): (ix: seq<nat>)
    ensures forall k :: 0 <= k < |ix| ==> ix[k] < |xs| && p(xs[ix[k]])
    ensures forall k, l :: 0 <= k < l < |ix| ==> ix[k] < ix[l]
  {
    if xs == [] then []
    else
      var n := |xs| - 1;
      assert forall k :: 0 <= k < n ==> xs[..n][k] == xs[k];
      if p(xs[n]) then Passing(xs[..n], p) + [n] else Passing(xs[..n], p)
  }

  /**
   * The filter keeps the input's order: its k-th element is the element at
   * the k-th passing position, and every passing position is taken.
   */
  lemma {:induction false} KeepOrder<T>(xs: seq<T>, p: T -> bool)
    ensures var ix := Passing(xs, p);
      && |Keep(xs, p)| == |ix|
      && (forall k :: 0 <= k < |ix| ==> Keep(xs, p)[k] == xs[ix[k]])
      && (forall j :: 0 <= j < |xs| && p(xs[j]) ==> j in ix)
  {
    if xs != [] {
      var n := |xs| - 1;
      var init := xs[..n];
      KeepOrder(init, p);
      var before := Passing(init, p);
      var kept := Keep(init, p);
      var ix := Passing(xs, p);
      var r := Keep(xs, p);
      assert p(xs[n]) ==> ix == before + [n] && r == kept + [xs[n]];
      assert !p(xs[n]) ==> ix == before && r == kept;
      forall k | 0 <= k < |ix| ensures r[k] == xs[ix[k]] {
        if k < |before| {
          assert r[k] == kept[k] == init[before[k]];
        }
      }
      forall j | 0 <= j < |xs| && p(xs[j]) ensures j in ix {
        if j < n {
          assert init[j] == xs[j];
          assert j in before;
        }
      }
    }
  }

  // ---------------------------------------------------------------- check_slots

  /** A session with at least one seat left (`available > 0`). */
  predicate HasSeats(s: Slot) {
    Available(s) > 0
  }

  /** The sessions `check_slots` counts and lists. */
  function AvailableSlots(slots: seq<Slot>): (r: seq<Slot>)
    ensures |r| <= |slots|
  {
    Keep(slots, HasSeats)
  }

  /** `check_slots`'s answer: some session has a seat left. An empty answer from the service gives false. */
  function SlotsFound(slots: seq<Slot>): bool {
    |AvailableSlots(slots)| > 0
  }

  /** The count is that of the sessions with `numberOfSeats - registeredSlots > 0`, each as often as it occurs. */
  lemma AvailableSlotsExact(slots: seq<Slot>, s: Slot)
    ensures multiset(AvailableSlots(slots))[s] == if Available(s) > 0 then multiset(slots)[s] else 0
  {
    KeepCount(slots, HasSeats, s);
  }

  /** Sessions are found exactly when one of them has a seat left. */
  lemma SlotsFoundIff(slots: seq<Slot>)
    ensures SlotsFound(slots) <==> exists i :: 0 <= i < |slots| && Available(slots[i]) > 0
  {
    KeepEmpty(slots, HasSeats);
  }

  /** The lines `check_slots` builds for the available sessions, in order, each with the reading `listed`. */
  function SlotLines(listed: string, code: Field, av: seq<Slot>): seq<string> {
    seq(|av|, j requires 0 <= j < |av| => SlotLine(listed, code, av[j]))
  }

  /** Every listed session shows at least one seat, and its line is the session's. */
  lemma SlotLinesShape(listed: string, code: Field, slots: seq<Slot>, i: nat)
    requires i < |AvailableSlots(slots)|
    ensures var s := AvailableSlots(slots)[i];
      SlotLines(listed, code, AvailableSlots(slots))[i] == SlotLine(listed, code, s)
      && Available(s) >= 1
  {
    var av := AvailableSlots(slots);
    KeepSound(slots, HasSeats, av[i]);
  }

  /** One more session adds its line. */
  lemma SlotLinesAppend(listed: string, code: Field, av: seq<Slot>, s: Slot)
    ensures SlotLines(listed, code, av + [s]) == SlotLines(listed, code, av) + [SlotLine(listed, code, s)]
  {
    var lhs := SlotLines(listed, code, av + [s]);
    var rhs := SlotLines(listed, code, av) + [SlotLine(listed, code, s)];
    assert |lhs| == |rhs|;
    forall j | 0 <= j < |lhs| ensures lhs[j] == rhs[j] {
      if j < |av| {
        assert (av + [s])[j] == av[j];
      }
    }
  }

  /** One more answer adds itself to the sessions when it has a seat left. */
  lemma AvailableStep(slots: seq<Slot>, i: nat)
    requires i < |slots|
    ensures Available(slots[i]) > 0 ==> AvailableSlots(slots[..i + 1]) == AvailableSlots(slots[..i]) + [slots[i]]
    ensures Available(slots[i]) <= 0 ==> AvailableSlots(slots[..i + 1]) == AvailableSlots(slots[..i])
  {
    assert slots[..i + 1][..i] == slots[..i];
  }

  /** One more answer adds its line to the listed sessions exactly when it has a seat left. */
  lemma SlotLinesStep(listed: string, code: Field, slots: seq<Slot>, i: nat)
    requires i < |slots|
    ensures var before := AvailableSlots(slots[..i]);
      var after := AvailableSlots(slots[..i + 1]);
      if Available(slots[i]) > 0 then
        |after| == |before| + 1
        && SlotLines(listed, code, after) == SlotLines(listed, code, before) + [SlotLine(listed, code, slots[i])]
      else
        |after| == |before| && SlotLines(listed, code, after) == SlotLines(listed, code, before)
  {
    AvailableStep(slots, i);
    if Available(slots[i]) > 0 {
      SlotLinesAppend(listed, code, AvailableSlots(slots[..i]), slots[i]);
    }
  }

  /**
   * What `check_slots` appends to the log: a failure line for an empty answer,
   * a "no available slots" line (with the timestamp only in verbose mode), or
   * the summary line followed by one `_log` of each available session's line.
   */
  function SlotCheckLines(verbose: bool, stamp: string, listed: string, locName: string, locId: string,
                          name: Field, code: Field, slots: seq<Slot>): (r: seq<string>)
    ensures |r| >= 1
  {
    var av := AvailableSlots(slots);
    if slots == [] then [LogLine(stamp, FailedFetchMessage(locName, locId))]
    else if av == [] then
      var message := NoSlotsMessage(locName, locId, BatchInfo(name, code));
      if verbose then [LogLine(stamp, message)] else [message]
    else [LogLine(stamp, SuccessMessage(locName, locId, BatchInfo(name, code), |av|))] + LogLines(stamp, SlotLines(listed, code, av))
  }

  /** The log of a location check: one line unless sessions were found, then the summary and one line per session. */
  lemma SlotCheckShape(verbose: bool, stamp: string, listed: string, locName: string, locId: string,
                       name: Field, code: Field, slots: seq<Slot>)
    ensures var r := SlotCheckLines(verbose, stamp, listed, locName, locId, name, code, slots);
      && (slots == [] ==> r == [LogLine(stamp, FailedFetchMessage(locName, locId))] && !SlotsFound(slots))
      && (SlotsFound(slots) <==> |r| > 1)
      && (SlotsFound(slots) ==>
            r[0] == LogLine(stamp, SuccessMessage(locName, locId, BatchInfo(name, code), |AvailableSlots(slots)|))
            && |r| == 1 + |AvailableSlots(slots)|)
  {
  }

  /**
   * The summary line of a location with sessions is one the email reports,
   * and its HTML item names the location, its identifier (with the batch) and
   * the number of sessions.
   */
  lemma SlotCheckReported(verbose: bool, stamp: string, listed: string, locName: string, locId: string,
                          name: Field, code: Field, slots: seq<Slot>)
    requires IsStamp(stamp) && SlotsFound(slots) && Itemisable(locName, locId, name, code)
    ensures var line := SlotCheckLines(verbose, stamp, listed, locName, locId, name, code, slots)[0];
      && ReportsAvailability(line) && Strip(line) == line
      && HtmlItem(line) == Some("<li><strong>" + locName + "</strong> (ID: " + locId + IdTail(name, code) + "): "
           + IntToString(|AvailableSlots(slots)|) + " session(s):" + " available sessions</li>")
  {
    var count := |AvailableSlots(slots)|;
    SuccessLineReported(stamp, locName, locId, BatchInfo(name, code), count);
    SuccessLineItem(stamp, locName, locId, name, code, count);
  }

  /**
   * After the summary, the log of a location check holds one line per session
   * with a seat left, in the answer's order: the line as built when the two
   * readings agree, and with the later reading in front when they differ.
   */
  lemma SlotCheckSessions(verbose: bool, stamp: string, listed: string, locName: string, locId: string,
                          name: Field, code: Field, slots: seq<Slot>, j: nat)
    requires IsStamp(stamp) && IsStamp(listed) && j < |AvailableSlots(slots)|
    ensures var r := SlotCheckLines(verbose, stamp, listed, locName, locId, name, code, slots);
      var line := SlotLine(listed, code, AvailableSlots(slots)[j]);
      && 1 + j < |r|
      && r[1 + j] == (if listed == stamp then line else stamp + " " + line)
      && Available(AvailableSlots(slots)[j]) >= 1
  {
    var av := AvailableSlots(slots);
    var sessions := LogLines(stamp, SlotLines(listed, code, av));
    var head := LogLine(stamp, SuccessMessage(locName, locId, BatchInfo(name, code), |av|));
    assert SlotCheckLines(verbose, stamp, listed, locName, locId, name, code, slots) == [head] + sessions;
    assert sessions[j] == LogLine(stamp, SlotLine(listed, code, av[j]));
    KeepSound(slots, HasSeats, av[j]);
    SlotLineLogged(stamp, listed, code, av[j]);
  }

  // ---------------------------------------------------------------- run_check_for_batch

  /** The test `str(loc.get('id')) == str(location_id)`. */
  function IdIs(filter: string): Location -> bool {
    (loc: Location) => Render(loc.id) == filter
  }

  /** The name of the first location with the filtered identifier, or "Unknown Location". */
  function LocationName(locs: seq<Location>, filter: string): string {
    match First(locs, IdIs(filter))
    case None => "Unknown Location"
    case Some(i) => Render(locs[i].name)
  }

  /** A location whose slot check finds sessions. */
  predicate LocationHasSlots(svc: Service, loc: Location) {
    SlotsFound(SlotsAt(svc, Render(loc.id)))
  }

  /** The checks of the locations, one after another. */
  function LocationsLines(verbose: bool, stamp: string, listed: string, svc: Service, name: Field, code: Field,
                          locs: seq<Location>): seq<string>
  {
    if locs == [] then []
    else
      var loc := locs[|locs| - 1];
      LocationsLines(verbose, stamp, listed, svc, name, code, locs[..|locs| - 1])
        + SlotCheckLines(verbose, stamp, listed, Render(loc.name), Render(loc.id), name, code, SlotsAt(svc, Render(loc.id)))
  }

  /** `locations_with_slots`: how many of the locations have sessions. */
  function LocationsWithSlots(svc: Service, locs: seq<Location>): (n: nat)
    ensures n <= |locs|
  {
    if locs == [] then 0
    else LocationsWithSlots(svc, locs[..|locs| - 1]) + if LocationHasSlots(svc, locs[|locs| - 1]) then 1 else 0
  }

  /** One more location adds its check and its count. */
  lemma LocationsStep(verbose: bool, stamp: string, listed: string, svc: Service, name: Field, code: Field, locs: seq<Location>, k: nat)
    requires k < |locs|
    ensures LocationsLines(verbose, stamp, listed, svc, name, code, locs[..k + 1])
      == LocationsLines(verbose, stamp, listed, svc, name, code, locs[..k])
         + SlotCheckLines(verbose, stamp, listed, Render(locs[k].name), Render(locs[k].id), name, code, SlotsAt(svc, Render(locs[k].id)))
    ensures LocationsWithSlots(svc, locs[..k + 1])
      == LocationsWithSlots(svc, locs[..k]) + if LocationHasSlots(svc, locs[k]) then 1 else 0
  {
    assert locs[..k + 1][..k] == locs[..k];
  }

  /** Some location has sessions exactly when the count is positive. */
  lemma {:induction false} LocationsWithSlotsPositive(svc: Service, locs: seq<Location>)
    ensures LocationsWithSlots(svc, locs) > 0 <==> exists i :: 0 <= i < |locs| && LocationHasSlots(svc, locs[i])
  {
    if locs != [] {
      var init := locs[..|locs| - 1];
      LocationsWithSlotsPositive(svc, init);
      if LocationsWithSlots(svc, init) > 0 {
        var i :| 0 <= i < |init| && LocationHasSlots(svc, init[i]);
        assert locs[i] == init[i];
      }
      if exists i :: 0 <= i < |locs| && LocationHasSlots(svc, locs[i]) {
        var i :| 0 <= i < |locs| && LocationHasSlots(svc, locs[i]);
        if i < |init| {
          assert init[i] == locs[i];
        }
      }
    }
  }

  function BatchHeader(stamp: string, id: Field, name: Field, code: Field): seq<string> {
    [LogLine(stamp, "Starting check for Batch: " + Render(name) + " (Code: " + Render(code) + ", ID: " + Render(id) + ")"),
     LogLine(stamp, Dashes67)]
  }

  function BatchSummary(stamp: string, name: Field, code: Field, checked: nat, withSlots: nat): seq<string> {
    [LogLine(stamp, Dashes68),
     LogLine(stamp, "Batch: " + Render(name) + " (Code: " + Render(code) + ")"),
     LogLine(stamp, "Total locations checked: " + IntToString(checked)),
     LogLine(stamp, "Locations with available slots: " + IntToString(withSlots)),
     LogLine(stamp, Dashes68)]
  }

  /** The lines for the location filter: the notice, then the check of that one location. */
  function FilteredLines(args: Args, stamp: string, listed: string, svc: Service, id: Field, name: Field, code: Field, filter: string): seq<string> {
    [LogLine(stamp, "Checking specific location ID: " + filter)]
      + SlotCheckLines(args.verbose, stamp, listed, LocationName(LocationsOf(svc, Render(id)), filter), filter, name, code, SlotsAt(svc, filter))
  }

  /** The lines for all locations: an error for an empty list, otherwise every check and the batch summary. */
  function AllLocationsLines(args: Args, stamp: string, listed: string, svc: Service, name: Field, code: Field, locs: seq<Location>): seq<string> {
    if locs == [] then [LogLine(stamp, "Error: Failed to fetch locations for batch " + Render(code) + " or empty response")]
    else
      [LogLine(stamp, "Processing all locations in batch " + Render(code) + "...")]
        + LocationsLines(args.verbose, stamp, listed, svc, name, code, locs)
        + BatchSummary(stamp, name, code, |locs|, LocationsWithSlots(svc, locs))
  }

  /** What `run_check_for_batch` appends to the log. */
  function BatchCheckLines(args: Args, stamp: string, listed: string, svc: Service, id: Field, name: Field, code: Field): seq<string> {
    BatchHeader(stamp, id, name, code)
      + if Truthy(args.locationId) then FilteredLines(args, stamp, listed, svc, id, name, code, args.locationId.value)
        else AllLocationsLines(args, stamp, listed, svc, name, code, LocationsOf(svc, Render(id)))
  }

  /** What `run_check_for_batch` returns: `locations_with_slots > 0`. */
  function BatchFound(args: Args, svc: Service, id: Field): bool {
    if Truthy(args.locationId) then SlotsFound(SlotsAt(svc, args.locationId.value))
    else LocationsWithSlots(svc, LocationsOf(svc, Render(id))) > 0
  }

  /**
   * A batch has sessions exactly when the filtered location has one with a
   * seat left, or, without a filter, when one of its locations does.
   */
  lemma BatchFoundIff(args: Args, svc: Service, id: Field)
    ensures BatchFound(args, svc, id) <==>
      if Truthy(args.locationId) then
        exists i :: 0 <= i < |SlotsAt(svc, args.locationId.value)| && Available(SlotsAt(svc, args.locationId.value)[i]) > 0
      else
        exists i :: 0 <= i < |LocationsOf(svc, Render(id))| && LocationHasSlots(svc, LocationsOf(svc, Render(id))[i])
  {
    if Truthy(args.locationId) {
      SlotsFoundIff(SlotsAt(svc, args.locationId.value));
    } else {
      LocationsWithSlotsPositive(svc, LocationsOf(svc, Render(id)));
    }
  }

  /** Location `i` is the first whose identifier renders as `filter`. */
  predicate FirstWithId(locs: seq<Location>, filter: string, i: int) {
    0 <= i < |locs| && Render(locs[i].id) == filter && forall j :: 0 <= j < i ==> Render(locs[j].id) != filter
  }

  /** With the filter, the name logged is that of the first location with the identifier, or "Unknown Location". */
  lemma LocationNameFirst(locs: seq<Location>, filter: string)
    ensures LocationName(locs, filter) == "Unknown Location" || exists i :: 0 <= i < |locs| && Render(locs[i].id) == filter
    ensures forall i :: FirstWithId(locs, filter, i) ==> LocationName(locs, filter) == Render(locs[i].name)
  {
    var r := First(locs, IdIs(filter));
    forall i | FirstWithId(locs, filter, i)
      ensures LocationName(locs, filter) == Render(locs[i].name)
    {
      assert IdIs(filter)(locs[i]);
      assert forall j :: 0 <= j < i ==> !IdIs(filter)(locs[j]);
    }
    if r.Some? {
      assert IdIs(filter)(locs[r.value]);
    }
  }

  // ---------------------------------------------------------------- run_check

  /** The checker's fields that a run reads and changes, and what it has written and sent so far. */
  datatype State = State(
    periodId: Field,
    batchId: Field,
    batchName: Field,
    batchCode: Field,
    found: bool,
    log: seq<string>,
    alerts: seq<Alert>)

  /** The test `b.get('status') == status`. */
  function StatusIs(status: string): Batch -> bool {
    (b: Batch) => b.status == Some(status)
  }

  /** Everything kept passes the test. */
  lemma KeepAll<T>(xs: seq<T>, p: T -> bool)
    ensures forall x :: x in Keep(xs, p) ==> x in xs && p(x)
  {
    forall x | x in Keep(xs, p) ensures x in xs && p(x) {
      KeepSound(xs, p, x);
    }
  }

  /** The batches with exactly the given status, in their order. */
  function Matching(bs: seq<Batch>, status: string): (r: seq<Batch>)
    ensures forall b :: b in r ==> b in bs && b.status == Some(status)
  {
    KeepAll(bs, StatusIs(status));
    Keep(bs, StatusIs(status))
  }

  /**
   * Exactly the batches with the status are kept, each as often as it occurs
   * and in the order of the answer; none are kept when none has it.
   */
  lemma MatchingExact(bs: seq<Batch>, status: string, b: Batch)
    ensures multiset(Matching(bs, status))[b] == if b.status == Some(status) then multiset(bs)[b] else 0
    ensures Matching(bs, status) == [] <==> forall i :: 0 <= i < |bs| ==> bs[i].status != Some(status)
    ensures var ix := Passing(bs, StatusIs(status));
      && |Matching(bs, status)| == |ix|
      && (forall k :: 0 <= k < |ix| ==> Matching(bs, status)[k] == bs[ix[k]] && bs[ix[k]].status == Some(status))
      && (forall k, l :: 0 <= k < l < |ix| ==> ix[k] < ix[l])
      && (forall j :: 0 <= j < |bs| && bs[j].status == Some(status) ==> j in ix)
  {
    KeepCount(bs, StatusIs(status), b);
    KeepEmpty(bs, StatusIs(status));
    KeepOrder(bs, StatusIs(status));
    var ix := Passing(bs, StatusIs(status));
    forall k | 0 <= k < |ix| ensures bs[ix[k]].status == Some(status) {
      assert StatusIs(status)(bs[ix[k]]);
    }
    forall j | 0 <= j < |bs| && bs[j].status == Some(status) ensures j in ix {
      assert StatusIs(status)(bs[j]);
    }
  }

  function RunHeader(stamp: string): seq<string> {
    [LogLine(stamp, Equals67), LogLine(stamp, "STARTING SLOT CHECK"), LogLine(stamp, Equals67)]
  }

  /** One batch's part of the all-batches loop: its check, then a separator line. */
  function BatchChunk(args: Args, stamp: string, listed: string, svc: Service, b: Batch): seq<string> {
    BatchCheckLines(args, stamp, listed, svc, b.id, b.name, b.code) + [LogLine(stamp, Dashes67)]
  }

  /** Each batch's check followed by a separator line. */
  function BatchesLines(args: Args, stamp: string, listed: string, svc: Service, bs: seq<Batch>): seq<string> {
    if bs == [] then []
    else BatchesLines(args, stamp, listed, svc, bs[..|bs| - 1]) + BatchChunk(args, stamp, listed, svc, bs[|bs| - 1])
  }

  /** `batches_with_slots` */
  function BatchesWithSlots(args: Args, svc: Service, bs: seq<Batch>): (n: nat)
    ensures n <= |bs|
  {
    if bs == [] then 0
    else BatchesWithSlots(args, svc, bs[..|bs| - 1]) + if BatchFound(args, svc, bs[|bs| - 1].id) then 1 else 0
  }

  /** One more batch adds its check, a separator and its count. */
  lemma BatchesStep(args: Args, stamp: string, listed: string, svc: Service, bs: seq<Batch>, k: nat)
    requires k < |bs|
    ensures BatchesLines(args, stamp, listed, svc, bs[..k + 1]) == BatchesLines(args, stamp, listed, svc, bs[..k]) + BatchChunk(args, stamp, listed, svc, bs[k])
    ensures BatchesWithSlots(args, svc, bs[..k + 1])
      == BatchesWithSlots(args, svc, bs[..k]) + if BatchFound(args, svc, bs[k].id) then 1 else 0
  {
    assert bs[..k + 1][..k] == bs[..k];
  }

  /** Some batch has sessions exactly when the count is positive. */
  lemma {:induction false} BatchesWithSlotsPositive(args: Args, svc: Service, bs: seq<Batch>)
    ensures BatchesWithSlots(args, svc, bs) > 0 <==> exists i :: 0 <= i < |bs| && BatchFound(args, svc, bs[i].id)
  {
    if bs != [] {
      var init := bs[..|bs| - 1];
      BatchesWithSlotsPositive(args, svc, init);
      if BatchesWithSlots(args, svc, init) > 0 {
        var i :| 0 <= i < |init| && BatchFound(args, svc, init[i].id);
        assert bs[i] == init[i];
      }
      if exists i :: 0 <= i < |bs| && BatchFound(args, svc, bs[i].id) {
        var i :| 0 <= i < |bs| && BatchFound(args, svc, bs[i].id);
        if i < |init| {
          assert init[i] == bs[i];
        }
      }
    }
  }

  function OverallSummary(stamp: string, checked: nat, withSlots: nat): seq<string> {
    [LogLine(stamp, Equals68),
     LogLine(stamp, "OVERALL RESULTS SUMMARY:"),
     LogLine(stamp, Equals68),
     LogLine(stamp, "Total batches checked: " + IntToString(checked)),
     LogLine(stamp, "Batches with available slots: " + IntToString(withSlots)),
     LogLine(stamp, Dashes68)]
  }

  /** The lines of the all-batches loop: the count, each batch's check, then the overall summary. */
  function AllBatchesLines(args: Args, stamp: string, listed: string, svc: Service, bs: seq<Batch>): seq<string> {
    [LogLine(stamp, "Checking " + IntToString(|bs|) + " batches with status '" + args.status + "'")]
      + BatchesLines(args, stamp, listed, svc, bs) + OverallSummary(stamp, |bs|, BatchesWithSlots(args, svc, bs))
  }

  /** The email `send_email_notification` sends: none when emails are off or the text body cannot be built. */
  function EmailAlerts(args: Args, stamp: string, name: Field, code: Field, log: seq<string>): (r: seq<Alert>)
    ensures |r| <= 1
    ensures r != [] ==> !args.noEmail && r[0].Email? && r[0].to == args.email && r[0].subject == Subject
    ensures r != [] <==> !args.noEmail && TextBody(stamp, name, code, log).Some?
  {
    if args.noEmail then []
    else
      match EmailFor(args.email, stamp, name, code, log)
      case None => []
      case Some(e) => [e]
  }

  /** An email goes out exactly when emails are on and every reported line holds a space. */
  lemma EmailAlertsExact(args: Args, stamp: string, name: Field, code: Field, log: seq<string>)
    ensures |EmailAlerts(args, stamp, name, code, log)| == 1 <==>
      !args.noEmail && forall j :: 0 <= j < |ReportedLines(log)| ==> Contains(ReportedLines(log)[j], " ")
  {
    SummaryTextExists(ReportedLines(log));
  }

  /**
   * The alerts of a run that found sessions: the email, then the sound. The
   * email names the checker's own batch: both calls pass no batch, so
   * `batch_name or self.batch_name` is the field.
   */
  function Notifications(args: Args, st: State, stamp: string): seq<Alert> {
    EmailAlerts(args, stamp, st.batchName, st.batchCode, st.log) + [Sound]
  }

  /** The end of a run: alerts or the "nothing found" line, then the closing lines. */
  function Conclude(args: Args, st: State, clock: Clock, nothingFound: string): State {
    var closing := [LogLine(clock.stamp, Equals68), LogLine(clock.stamp, "Check completed at " + clock.instant)];
    if st.found then st.(alerts := st.alerts + Notifications(args, st, clock.stamp), log := st.log + closing)
    else st.(log := st.log + [LogLine(clock.stamp, nothingFound)] + closing)
  }

  /** The all-batches run up to its conclusion, once some batch matched. */
  function AllBatchesChecked(args: Args, st: State, m: Moment, bs: seq<Batch>): (r: State)
    requires bs != []
    ensures r.alerts == st.alerts && r.found == (BatchesWithSlots(args, m.service, bs) > 0)
    ensures r == st.(found := r.found, log := r.log) && |st.log| < |r.log| && IsPrefix(st.log, r.log)
  {
    var added := RunHeader(m.clock.stamp) + AllBatchesLines(args, m.clock.stamp, m.clock.listed, m.service, bs);
    PrefixAppend(st.log, added);
    st.(found := BatchesWithSlots(args, m.service, bs) > 0, log := st.log + added)
  }

  /** The single-batch run up to its conclusion, on the batch already chosen. */
  function SingleBatchChecked(args: Args, st: State, m: Moment): (r: State)
    ensures r.alerts == st.alerts && r.found == BatchFound(args, m.service, st.batchId)
    ensures r == st.(found := r.found, log := r.log) && |st.log| < |r.log| && IsPrefix(st.log, r.log)
  {
    var added := RunHeader(m.clock.stamp)
      + BatchCheckLines(args, m.clock.stamp, m.clock.listed, m.service, st.batchId, st.batchName, st.batchCode);
    PrefixAppend(st.log, added);
    st.(found := BatchFound(args, m.service, st.batchId), log := st.log + added)
  }

  /** `run_check`: the checker's state after one check against the service's answers at moment `m`. */
  function CheckRun(args: Args, st: State, m: Moment): (r: State)
    ensures |st.log| < |r.log|
    ensures r.periodId == st.periodId && r.batchId == st.batchId
    ensures r.batchName == st.batchName && r.batchCode == st.batchCode
  {
    if args.allBatches then
      var bs := Matching(BatchesOf(m.service, Render(st.periodId)), args.status);
      if bs == [] then
        st.(log := st.log + RunHeader(m.clock.stamp) + [LogLine(m.clock.stamp, "No batches with status '" + args.status + "' found.")])
      else Conclude(args, AllBatchesChecked(args, st, m, bs), m.clock, "No available slots found in any batch.")
    else Conclude(args, SingleBatchChecked(args, st, m), m.clock, "No available slots found.")
  }

  /** `a` is where `b` starts. */
  predicate IsPrefix<T(==)>(a: seq<T>, b: seq<T>) {
    |a| <= |b| && b[..|a|] == a
  }

  lemma PrefixAppend<T>(a: seq<T>, x: seq<T>)
    ensures IsPrefix(a, a + x)
  {
    assert (a + x)[..|a|] == a;
  }

  lemma PrefixTrans<T>(a: seq<T>, b: seq<T>, c: seq<T>)
    requires IsPrefix(a, b) && IsPrefix(b, c)
    ensures IsPrefix(a, c)
  {
    assert c[..|a|] == c[..|b|][..|a|];
  }

  /** The alerts a check adds: none unless it found sessions, and then at most one email followed by one sound. */
  predicate AlertsOfCheck(args: Args, before: State, after: State) {
    && IsPrefix(before.alerts, after.alerts)
    && var added := after.alerts[|before.alerts|..];
      added != [] ==> after.found && 1 <= |added| <= 2 && added[|added| - 1] == Sound
                      && (|added| == 2 ==> added[0].Email? && added[0].subject == Subject && added[0].to == args.email && !args.noEmail)
  }

  /** A check only appends to the log and leaves the chosen period and batch alone. */
  predicate Extends(before: State, after: State) {
    && |before.log| < |after.log| && IsPrefix(before.log, after.log)
    && after.periodId == before.periodId && after.batchId == before.batchId
    && after.batchName == before.batchName && after.batchCode == before.batchCode
  }

  lemma ConcludeFacts(args: Args, st: State, clock: Clock, nothingFound: string)
    ensures var after := Conclude(args, st, clock, nothingFound);
      AlertsOfCheck(args, st, after) && Extends(st, after) && after.found == st.found
  {
    var after := Conclude(args, st, clock, nothingFound);
    PrefixAppend(st.alerts, after.alerts[|st.alerts|..]);
    if st.found {
      PrefixAppend(st.alerts, Notifications(args, st, clock.stamp));
      PrefixAppend(st.log, [LogLine(clock.stamp, Equals68), LogLine(clock.stamp, "Check completed at " + clock.instant)]);
    } else {
      assert after.log == st.log + ([LogLine(clock.stamp, nothingFound)]
        + [LogLine(clock.stamp, Equals68), LogLine(clock.stamp, "Check completed at " + clock.instant)]);
      PrefixAppend(st.log, after.log[|st.log|..]);
    }
  }

  /** Notifying happens at most once per check, and only when sessions were found. */
  lemma CheckRunAlerts(args: Args, st: State, m: Moment)
    ensures AlertsOfCheck(args, st, CheckRun(args, st, m)) && Extends(st, CheckRun(args, st, m))
  {
    var bs := Matching(BatchesOf(m.service, Render(st.periodId)), args.status);
    var after := CheckRun(args, st, m);
    if args.allBatches && bs == [] {
      PrefixAppend(st.log, after.log[|st.log|..]);
      assert after.log == st.log + after.log[|st.log|..];
    } else {
      var mid := if args.allBatches then AllBatchesChecked(args, st, m, bs) else SingleBatchChecked(args, st, m);
      var nothing := if args.allBatches then "No available slots found in any batch." else "No available slots found.";
      assert after == Conclude(args, mid, m.clock, nothing);
      ConcludeFacts(args, mid, m.clock, nothing);
      PrefixTrans(st.log, mid.log, after.log);
    }
  }

  /** A found check always notifies, except in the all-batches run where no batch matched. */
  lemma CheckRunNotifies(args: Args, st: State, m: Moment)
    requires !(args.allBatches && Matching(BatchesOf(m.service, Render(st.periodId)), args.status) == [])
    ensures var after := CheckRun(args, st, m);
      after.found <==> |after.alerts| > |st.alerts|
  {
  }

  /**
   * Concluding a check that found sessions with emails on sends the email,
   * then the sound, whenever every line the email reports holds a space.
   */
  lemma ConcludeEmails(args: Args, st: State, clock: Clock, nothingFound: string)
    ensures var after := Conclude(args, st, clock, nothingFound);
      var reported := ReportedLines(after.log);
      after.found && !args.noEmail && (forall j :: 0 <= j < |reported| ==> Contains(reported[j], " ")) ==>
        |after.alerts| == |st.alerts| + 2 && after.alerts[|st.alerts|].Email?
        && after.alerts[|st.alerts|].to == args.email && after.alerts[|st.alerts| + 1] == Sound
  {
    var after := Conclude(args, st, clock, nothingFound);
    var reported := ReportedLines(after.log);
    if after.found && !args.noEmail && (forall j :: 0 <= j < |reported| ==> Contains(reported[j], " ")) {
      var closing := [LogLine(clock.stamp, Equals68), LogLine(clock.stamp, "Check completed at " + clock.instant)];
      assert after.log == st.log + closing;
      KeepStrippedAppend(st.log, closing, ReportsAvailability);
      var early := ReportedLines(st.log);
      assert forall j :: 0 <= j < |early| ==> early[j] == reported[j];
      EmailAlertsExact(args, clock.stamp, st.batchName, st.batchCode, st.log);
    }
  }

  /**
   * A check that finds sessions with emails on sends the email, then the
   * sound, whenever every line the email reports from the file holds a space.
   */
  lemma CheckRunEmails(args: Args, st: State, m: Moment)
    requires !(args.allBatches && Matching(BatchesOf(m.service, Render(st.periodId)), args.status) == [])
    ensures var after := CheckRun(args, st, m);
      var reported := ReportedLines(after.log);
      after.found && !args.noEmail && (forall j :: 0 <= j < |reported| ==> Contains(reported[j], " ")) ==>
        |after.alerts| == |st.alerts| + 2 && after.alerts[|st.alerts|].Email?
        && after.alerts[|st.alerts|].to == args.email && after.alerts[|st.alerts| + 1] == Sound
  {
    if args.allBatches {
      var bs := Matching(BatchesOf(m.service, Render(st.periodId)), args.status);
      ConcludeEmails(args, AllBatchesChecked(args, st, m, bs), m.clock, "No available slots found in any batch.");
    } else {
      ConcludeEmails(args, SingleBatchChecked(args, st, m), m.clock, "No available slots found.");
    }
  }

  /** No batch with the status: the check returns false, keeps the earlier result and sends nothing. */
  lemma CheckRunNoMatch(args: Args, st: State, m: Moment)
    requires args.allBatches
    requires forall i :: 0 <= i < |BatchesOf(m.service, Render(st.periodId))| ==>
      BatchesOf(m.service, Render(st.periodId))[i].status != Some(args.status)
    ensures var after := CheckRun(args, st, m);
      after.found == st.found && after.alerts == st.alerts
      && after.log == st.log + RunHeader(m.clock.stamp) + [LogLine(m.clock.stamp, "No batches with status '" + args.status + "' found.")]
  {
    var bs := BatchesOf(m.service, Render(st.periodId));
    MatchingExact(bs, args.status, Batch(None, None, None, None));
  }

  /** Sessions are found exactly when some checked batch (the chosen one, or a matching one) has them. */
  lemma CheckRunFound(args: Args, st: State, m: Moment)
    ensures var bs := Matching(BatchesOf(m.service, Render(st.periodId)), args.status);
      CheckRun(args, st, m).found <==>
        if !args.allBatches then BatchFound(args, m.service, st.batchId)
        else if bs == [] then st.found
        else exists i :: 0 <= i < |bs| && BatchFound(args, m.service, bs[i].id)
  {
    var bs := Matching(BatchesOf(m.service, Render(st.periodId)), args.status);
    BatchesWithSlotsPositive(args, m.service, bs);
  }

  /** The monitor loop: `run_check` once per moment, in order. */
  function Monitor(args: Args, st: State, ms: seq<Moment>): (r: State)
    ensures |st.log| + |ms| <= |r.log|
    ensures r.periodId == st.periodId && r.batchId == st.batchId
    ensures r.batchName == st.batchName && r.batchCode == st.batchCode
  {
    if ms == [] then st
    else CheckRun(args, Monitor(args, st, ms[..|ms| - 1]), ms[|ms| - 1])
  }

  /** One more moment of monitoring is one more check. */
  lemma MonitorStep(args: Args, st: State, ms: seq<Moment>, k: nat)
    requires k < |ms|
    ensures Monitor(args, st, ms[..k + 1]) == CheckRun(args, Monitor(args, st, ms[..k]), ms[k])
  {
    assert ms[..k + 1][..k] == ms[..k];
  }

  /** Monitoring only appends to the log and the alerts, at most two alerts per check. */
  lemma {:induction false} MonitorGrows(args: Args, st: State, ms: seq<Moment>)
    ensures var after := Monitor(args, st, ms);
      && |st.log| + |ms| <= |after.log| && IsPrefix(st.log, after.log)
      && IsPrefix(st.alerts, after.alerts) && |after.alerts| <= |st.alerts| + 2 * |ms|
      && after.periodId == st.periodId && after.batchId == st.batchId
      && after.batchName == st.batchName && after.batchCode == st.batchCode
  {
    if ms != [] {
      var mid := Monitor(args, st, ms[..|ms| - 1]);
      MonitorGrows(args, st, ms[..|ms| - 1]);
      CheckRunAlerts(args, mid, ms[|ms| - 1]);
      var after := Monitor(args, st, ms);
      PrefixTrans(st.log, mid.log, after.log);
      PrefixTrans(st.alerts, mid.alerts, after.alerts);
    }
  }

  // ---------------------------------------------------------------- run

  /** How the single batch is chosen: by code, or the first OPENING one. */
  datatype Selection =
    | CodeNotFound
    | NoOpeningBatch
    | Chosen(batch: Batch, warning: bool)

  /** The test `batch.get('code') == batch_code`. */
  function CodeIs(code: Field): Batch -> bool {
    (b: Batch) => b.code == code
  }

  /**
   * With a code, the first batch with that code (a warning when it is not
   * OPENING); without one, the first of the OPENING batches.
   */
  function SelectBatch(code: Field, bs: seq<Batch>): (r: Selection)
    ensures r.Chosen? ==> r.batch in bs && Qualifies(code, r.batch)
  {
    if Truthy(code) then
      match First(bs, CodeIs(code))
      case None => CodeNotFound
      case Some(i) => Chosen(bs[i], bs[i].status != Some("OPENING"))
    else
      var opening := Matching(bs, "OPENING");
      if opening == [] then NoOpeningBatch else Chosen(opening[0], false)
  }

  /** A batch the selection accepts: the one with the code, or an OPENING one when there is no code. */
  predicate Qualifies(code: Field, b: Batch) {
    if Truthy(code) then b.code == code else b.status == Some("OPENING")
  }

  /** Batch `i` is the first that qualifies. */
  predicate FirstQualifying(code: Field, bs: seq<Batch>, i: int) {
    0 <= i < |bs| && Qualifies(code, bs[i]) && forall j :: 0 <= j < i ==> !Qualifies(code, bs[j])
  }

  /** The selected batch is the first that qualifies, and selection fails only when none does. */
  lemma SelectBatchFirst(code: Field, bs: seq<Batch>)
    ensures var sel := SelectBatch(code, bs);
      && (sel.Chosen? <==> exists i :: 0 <= i < |bs| && Qualifies(code, bs[i]))
      && (sel.Chosen? ==> exists i :: FirstQualifying(code, bs, i) && sel.batch == bs[i])
      && (sel.Chosen? && sel.warning <==> sel.Chosen? && Truthy(code) && sel.batch.status != Some("OPENING"))
  {
    if Truthy(code) {
      var r := First(bs, CodeIs(code));
      if r.Some? {
        assert CodeIs(code)(bs[r.value]);
        assert forall j :: 0 <= j < r.value ==> !CodeIs(code)(bs[j]);
      } else {
        assert forall j :: 0 <= j < |bs| ==> !CodeIs(code)(bs[j]);
      }
    } else {
      KeepFirst(bs, StatusIs("OPENING"));
      var r := First(bs, StatusIs("OPENING"));
      if r.Some? {
        assert StatusIs("OPENING")(bs[r.value]);
        assert forall j :: 0 <= j < r.value ==> !StatusIs("OPENING")(bs[j]);
      } else {
        assert forall j :: 0 <= j < |bs| ==> !StatusIs("OPENING")(bs[j]);
      }
    }
  }

  /** How a run ends: its return value and the checker's state. */
  datatype Outcome = Outcome(ok: bool, state: State)

  /** The checks of a run: one, or one per moment while monitoring (the first moment, then the rest). */
  function Checking(args: Args, st: State, first: Moment, more: seq<Moment>): State {
    if args.monitor then Monitor(args, st, [first] + more) else CheckRun(args, st, first)
  }

  /**
   * `run`: take the first period, list its batches from `start`, choose the
   * batch unless all batches are checked, then check.
   */
  function RunOutcome(args: Args, st: State, start: Service, first: Moment, more: seq<Moment>): (r: Outcome)
    ensures r.ok ==> start.periods != [] && r.state.periodId == start.periods[0].id
  {
    if start.periods == [] then Outcome(false, st)
    else
      var periodId := start.periods[0].id;
      var st1 := st.(periodId := periodId);
      var bs := BatchesOf(start, Render(periodId));
      if args.showBatches then Outcome(true, st1)
      else if args.allBatches then Outcome(true, Checking(args, st1, first, more))
      else
        match SelectBatch(st.batchCode, bs)
        case CodeNotFound => Outcome(false, st1)
        case NoOpeningBatch => Outcome(false, st1)
        case Chosen(b, _) =>
          var code := if Truthy(st.batchCode) then st.batchCode else b.code;
          Outcome(true, Checking(args, st1.(batchId := b.id, batchName := b.name, batchCode := code), first, more))
  }

  /** A run that returns false has checked nothing: no log line, no alert. */
  lemma RunFailsEarly(args: Args, st: State, start: Service, first: Moment, more: seq<Moment>)
    ensures var out := RunOutcome(args, st, start, first, more);
      !out.ok ==> out.state.log == st.log && out.state.alerts == st.alerts && out.state.found == st.found
    ensures RunOutcome(args, st, start, first, more).ok <==>
      start.periods != [] &&
      (args.showBatches || args.allBatches ||
       SelectBatch(st.batchCode, BatchesOf(start, Render(start.periods[0].id))).Chosen?)
  {
  }

  // ---------------------------------------------------------------- construction

  /**
   * The batch code the constructor leaves in the checker as written: it is
   * copied from the options and then reset to None with the other fields
   * that are set later.
   */
  function InitialBatchCodeAsWritten(args: Args): Field {
    None
  }

  /** The batch code the constructor evidently means to keep: the `-b` option. */
  function InitialBatchCode(args: Args): Field {
    args.batchCode
  }

  /** A freshly constructed checker: nothing chosen, nothing logged, nothing sent. */
  function InitialState(code: Field): State {
    State(None, None, None, code, false, [], [])
  }

  /** Checking never changes which batch was chosen. */
  lemma CheckingKeepsBatch(args: Args, st: State, first: Moment, more: seq<Moment>)
    ensures Checking(args, st, first, more).batchId == st.batchId
    ensures Checking(args, st, first, more).batchCode == st.batchCode
  {
    if args.monitor {
      MonitorGrows(args, st, [first] + more);
    } else {
      CheckRunAlerts(args, st, first);
    }
  }

  /**
   * With the constructor as written, asking for batch 503 still checks the
   * first OPENING batch, 502.
   */
  lemma BatchCodeIgnoredAsWritten(args: Args, first: Moment)
    requires args.batchCode == Some("503") && !args.showBatches && !args.allBatches
    ensures var b502 := Batch(Some("1"), Some("A"), Some("502"), Some("OPENING"));
      var b503 := Batch(Some("2"), Some("B"), Some("503"), Some("OPENING"));
      var start := Service([Period(Some("7"))], map["7" := [b502, b503]], map[], map[]);
      var out := RunOutcome(args, InitialState(InitialBatchCodeAsWritten(args)), start, first, []);
      out.ok && out.state.batchId == Some("1") && out.state.batchCode == Some("502")
  {
    var b502 := Batch(Some("1"), Some("A"), Some("502"), Some("OPENING"));
    var b503 := Batch(Some("2"), Some("B"), Some("503"), Some("OPENING"));
    var start := Service([Period(Some("7"))], map["7" := [b502, b503]], map[], map[]);
    var st := InitialState(None);
    KeepFirst([b502, b503], StatusIs("OPENING"));
    assert StatusIs("OPENING")(b502);
    assert SelectBatch(None, [b502, b503]) == Chosen(b502, false);
    var st1 := st.(periodId := Some("7"), batchId := b502.id, batchName := b502.name, batchCode := b502.code);
    assert RunOutcome(args, st, start, first, []) == Outcome(true, Checking(args, st1, first, []));
    CheckingKeepsBatch(args, st1, first, []);
  }

  /**
   * With the corrected constructor, a run given a batch code checks the first
   * batch with that code, and fails before any check when no batch has it.
   */
  lemma RunHonoursBatchCode(args: Args, start: Service, first: Moment, more: seq<Moment>)
    requires Truthy(args.batchCode) && !args.showBatches && !args.allBatches && start.periods != []
    ensures var bs := BatchesOf(start, Render(start.periods[0].id));
      var out := RunOutcome(args, InitialState(InitialBatchCode(args)), start, first, more);
      && (out.ok <==> exists i :: 0 <= i < |bs| && bs[i].code == args.batchCode)
      && (out.ok ==> exists i :: FirstQualifying(args.batchCode, bs, i) && out.state.batchId == bs[i].id)
  {
    var bs := BatchesOf(start, Render(start.periods[0].id));
    var st := InitialState(args.batchCode);
    SelectBatchFirst(args.batchCode, bs);
    var sel := SelectBatch(args.batchCode, bs);
    if sel.Chosen? {
      var st1 := st.(periodId := start.periods[0].id, batchId := sel.batch.id, batchName := sel.batch.name,
                     batchCode := args.batchCode);
      CheckingKeepsBatch(args, st1, first, more);
    }
  }
}
