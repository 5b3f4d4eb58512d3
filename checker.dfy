/**
 * The checker object: the batch it has chosen, whether its last check found
 * sessions, the result log it appends to and the alerts it has sent. Each
 * method does what the source's method does, loop by loop, and is proved to
 * leave the state the functions of `Checks` describe.
 */
module Checker {
  import opened Wrappers
  import opened PyStr
  import opened Records
  import opened Logging
  import opened Messages
  import opened Notify
  import opened Checks

  class HSAChecker {
    const args: Args
    var periodId: Field
    var batchId: Field
    var batchName: Field
    var batchCode: Field
    var availableFound: bool
    /** The lines of the results file, in the order they were written. */
    var log: seq<string>
    /** The emails and sounds sent so far. */
    var alerts: seq<Alert>

    function Snapshot(): State
      reads this
    {
      State(periodId, batchId, batchName, batchCode, availableFound, log, alerts)
    }

    /** A new checker keeps the `-b` code (see `Checks.InitialBatchCodeAsWritten` for the code as written). */
    constructor(args: Args)
      ensures this.args == args && Snapshot() == InitialState(InitialBatchCode(args))
    {
      this.args := args;
      batchCode := args.batchCode;
      periodId := None;
      batchId := None;
      batchName := None;
      availableFound := false;
      log := [];
      alerts := [];
    }

    /** `_log`: the message with the timestamp in front, unless it already starts with it. */
    method Log(stamp: string, message: string)
      modifies this`log
      ensures log == old(log) + [LogLine(stamp, message)]
    {
      var fullMessage := if StartsWith(message, stamp) then message else stamp + " " + message;
      log := log + [fullMessage];
    }

    /** `_log_file`: the message as it is. */
    method LogFile(message: string)
      modifies this`log
      ensures log == old(log) + [message]
    {
      log := log + [message];
    }

    /** The counting loop of `check_slots`: the sessions with a seat left, as the lines that list them. */
    method CollectAvailable(response: seq<Slot>, listed: string, code: Field)
      returns (availableCount: nat, availableSlots: seq<string>)
      ensures availableCount == |AvailableSlots(response)|
      ensures availableSlots == SlotLines(listed, code, AvailableSlots(response))
    {
      availableCount := 0;
      availableSlots := [];
      var i := 0;
      while i < |response|
        invariant 0 <= i <= |response|
        invariant availableCount == |AvailableSlots(response[..i])|
        invariant availableSlots == SlotLines(listed, code, AvailableSlots(response[..i]))
      {
        var slot := response[i];
        var total := Seats(slot);
        var registered := Registered(slot);
        var available := total - registered;
        assert available == Available(response[i]);
        SlotLinesStep(listed, code, response, i);
        if available > 0 {
          availableCount := availableCount + 1;
          availableSlots := availableSlots + [SlotLine(listed, code, slot)];
        }
        i := i + 1;
      }
      assert response[..i] == response;
    }

    /** The logging loop of `check_slots`: one `_log` per listed session. */
    method LogSlotLines(stamp: string, availableSlots: seq<string>)
      modifies this`log
      ensures log == old(log) + LogLines(stamp, availableSlots)
    {
      var j := 0;
      while j < |availableSlots|
        invariant 0 <= j <= |availableSlots|
        invariant log == old(log) + LogLines(stamp, availableSlots[..j])
      {
        Log(stamp, availableSlots[j]);
        assert LogLines(stamp, availableSlots[..j + 1]) == LogLines(stamp, availableSlots[..j]) + [LogLine(stamp, availableSlots[j])];
        AppendOne(old(log), LogLines(stamp, availableSlots[..j]), LogLine(stamp, availableSlots[j]));
        j := j + 1;
      }
      assert availableSlots[..j] == availableSlots;
    }

    /** `check_slots` for one location. */
    method CheckSlots(svc: Service, stamp: string, listed: string, locId: string, locName: string, name: Field, code: Field)
      returns (found: bool)
      modifies this`log
      ensures log == old(log) + SlotCheckLines(args.verbose, stamp, listed, locName, locId, name, code, SlotsAt(svc, locId))
      ensures found == SlotsFound(SlotsAt(svc, locId))
    {
      var response := SlotsAt(svc, locId);
      if response == [] {
        Log(stamp, FailedFetchMessage(locName, locId));
        return false;
      }
      var availableCount, availableSlots := CollectAvailable(response, listed, code);
      var batchInfo := BatchInfo(name, code);
      if availableCount == 0 {
        if args.verbose {
          Log(stamp, NoSlotsMessage(locName, locId, batchInfo));
        } else {
          LogFile(NoSlotsMessage(locName, locId, batchInfo));
        }
        found := false;
      } else {
        var summary := LogLine(stamp, SuccessMessage(locName, locId, batchInfo, availableCount));
        Log(stamp, SuccessMessage(locName, locId, batchInfo, availableCount));
        LogSlotLines(stamp, availableSlots);
        AppendAssoc(old(log), [summary], LogLines(stamp, availableSlots));
        found := true;
      }
    }

    /** The name `run_check_for_batch` logs for the filtered location. */
    method FindLocationName(locs: seq<Location>, filter: string) returns (locationName: string)
      ensures locationName == LocationName(locs, filter)
    {
      locationName := "Unknown Location";
      var k := 0;
      while k < |locs|
        invariant 0 <= k <= |locs|
        invariant forall j :: 0 <= j < k ==> !IdIs(filter)(locs[j])
      {
        if Render(locs[k].id) == filter {
          assert IdIs(filter)(locs[k]);
          locationName := Render(locs[k].name);
          return;
        }
        k := k + 1;
      }
    }

    /**
     * The location loop of `run_check_for_batch`: every location's check; the
     * results are `location_count` and `locations_with_slots`.
     */
    method CheckLocations(svc: Service, stamp: string, listed: string, name: Field, code: Field, locs: seq<Location>)
      returns (locationCount: nat, locationsWithSlots: nat)
      modifies this`log
      ensures log == old(log) + LocationsLines(args.verbose, stamp, listed, svc, name, code, locs)
      ensures locationCount == |locs|
      ensures locationsWithSlots == LocationsWithSlots(svc, locs)
    {
      locationCount := 0;
      locationsWithSlots := 0;
      var k := 0;
      while k < |locs|
        invariant 0 <= k <= |locs|
        invariant log == old(log) + LocationsLines(args.verbose, stamp, listed, svc, name, code, locs[..k])
        invariant locationCount == k
        invariant locationsWithSlots == LocationsWithSlots(svc, locs[..k])
      {
        var location := locs[k];
        locationCount := locationCount + 1;
        LocationsStep(args.verbose, stamp, listed, svc, name, code, locs, k);
        var done := log;
        var ok := CheckSlots(svc, stamp, listed, Render(location.id), Render(location.name), name, code);
        AppendAssoc(old(log), LocationsLines(args.verbose, stamp, listed, svc, name, code, locs[..k]), log[|done|..]);
        if ok {
          locationsWithSlots := locationsWithSlots + 1;
        }
        k := k + 1;
      }
      assert locs[..k] == locs;
    }

    /** The summary `run_check_for_batch` logs after checking every location. */
    method LogBatchSummary(stamp: string, name: Field, code: Field, checked: nat, withSlots: nat)
      modifies this`log
      ensures log == old(log) + BatchSummary(stamp, name, code, checked, withSlots)
    {
      Log(stamp, Dashes68);
      Log(stamp, "Batch: " + Render(name) + " (Code: " + Render(code) + ")");
      Log(stamp, "Total locations checked: " + IntToString(checked));
      Log(stamp, "Locations with available slots: " + IntToString(withSlots));
      Log(stamp, Dashes68);
    }

    /** The branch of `run_check_for_batch` for a location filter. */
    method CheckFiltered(svc: Service, stamp: string, listed: string, id: Field, name: Field, code: Field, filter: string)
      returns (found: bool)
      modifies this`log
      ensures log == old(log) + FilteredLines(args, stamp, listed, svc, id, name, code, filter)
      ensures found == SlotsFound(SlotsAt(svc, filter))
    {
      Log(stamp, "Checking specific location ID: " + filter);
      var notice := log;
      var locationName := FindLocationName(LocationsOf(svc, Render(id)), filter);
      found := CheckSlots(svc, stamp, listed, filter, locationName, name, code);
      AppendAssoc(old(log), [LogLine(stamp, "Checking specific location ID: " + filter)], log[|notice|..]);
    }

    /** The branch of `run_check_for_batch` without a filter: all of the batch's locations, then the summary. */
    method CheckAllLocations(svc: Service, stamp: string, listed: string, id: Field, name: Field, code: Field)
      returns (found: bool)
      modifies this`log
      ensures log == old(log) + AllLocationsLines(args, stamp, listed, svc, name, code, LocationsOf(svc, Render(id)))
      ensures found == (LocationsWithSlots(svc, LocationsOf(svc, Render(id))) > 0)
    {
      var locs := LocationsOf(svc, Render(id));
      if locs == [] {
        Log(stamp, "Error: Failed to fetch locations for batch " + Render(code) + " or empty response");
        return false;
      }
      Log(stamp, "Processing all locations in batch " + Render(code) + "...");
      var notice := log;
      var locationCount, locationsWithSlots := CheckLocations(svc, stamp, listed, name, code, locs);
      var checked := log;
      LogBatchSummary(stamp, name, code, locationCount, locationsWithSlots);
      ghost var lines := LocationsLines(args.verbose, stamp, listed, svc, name, code, locs);
      ghost var summary := BatchSummary(stamp, name, code, |locs|, LocationsWithSlots(svc, locs));
      assert checked == notice + lines;
      AppendAssoc(notice, lines, summary);
      AppendAssoc(old(log), [LogLine(stamp, "Processing all locations in batch " + Render(code) + "...")], lines + summary);
      assert AllLocationsLines(args, stamp, listed, svc, name, code, locs)
        == [LogLine(stamp, "Processing all locations in batch " + Render(code) + "...")] + lines + summary;
      AppendAssoc([LogLine(stamp, "Processing all locations in batch " + Render(code) + "...")], lines, summary);
      found := locationsWithSlots > 0;
    }

    /** `run_check_for_batch`: the header, then one location or all of them. */
    method RunCheckForBatch(svc: Service, stamp: string, listed: string, id: Field, name: Field, code: Field)
      returns (found: bool)
      modifies this`log
      ensures log == old(log) + BatchCheckLines(args, stamp, listed, svc, id, name, code)
      ensures found == BatchFound(args, svc, id)
    {
      Log(stamp, "Starting check for Batch: " + Render(name) + " (Code: " + Render(code) + ", ID: " + Render(id) + ")");
      Log(stamp, Dashes67);
      var header := log;
      assert header == old(log) + BatchHeader(stamp, id, name, code);
      if Truthy(args.locationId) {
        found := CheckFiltered(svc, stamp, listed, id, name, code, args.locationId.value);
      } else {
        found := CheckAllLocations(svc, stamp, listed, id, name, code);
      }
      AppendAssoc(old(log), BatchHeader(stamp, id, name, code), log[|header|..]);
    }

    /** `play_notification_sound` */
    method PlaySound()
      modifies this`alerts
      ensures alerts == old(alerts) + [Sound]
    {
      alerts := alerts + [Sound];
    }

    /** The first loop of `send_email_notification`: the stripped lines reporting available sessions. */
    method CollectReported(lines: seq<string>) returns (availableSlots: seq<string>)
      ensures availableSlots == ReportedLines(lines)
    {
      availableSlots := [];
      var k := 0;
      while k < |lines|
        invariant 0 <= k <= |lines|
        invariant availableSlots == ReportedLines(lines[..k])
      {
        var line := lines[k];
        assert lines[..k + 1][..k] == lines[..k];
        if Contains(line, "✓") && Contains(line, "has") && Contains(line, "available") {
          availableSlots := availableSlots + [Strip(line)];
        }
        k := k + 1;
      }
      assert lines[..k] == lines;
    }

    /** The summary loop of the text body; None where the source's `[1]` raises. */
    method BuildSummary(availableSlots: seq<string>) returns (summary: Option<string>)
      ensures summary == SummaryText(availableSlots)
    {
      var text := "";
      var j := 0;
      while j < |availableSlots|
        invariant 0 <= j <= |availableSlots|
        invariant SummaryText(availableSlots[..j]) == Some(text)
      {
        assert availableSlots[..j + 1][..j] == availableSlots[..j];
        var entry := SummaryEntryAsWritten(availableSlots[j]);
        if entry.None? {
          SummaryTextFails(availableSlots, j);
          return None;
        }
        text := text + entry.value + "\n";
        j := j + 1;
      }
      assert availableSlots[..j] == availableSlots;
      return Some(text);
    }

    /** The list-item loop of the HTML body: lines that do not split into the three parts are skipped. */
    method BuildItems(availableSlots: seq<string>) returns (items: string)
      ensures items == HtmlItems(availableSlots)
    {
      items := "";
      var j := 0;
      while j < |availableSlots|
        invariant 0 <= j <= |availableSlots|
        invariant items == HtmlItems(availableSlots[..j])
      {
        assert availableSlots[..j + 1][..j] == availableSlots[..j];
        var item := HtmlItem(availableSlots[j]);
        if item.Some? {
          items := items + item.value;
        }
        j := j + 1;
      }
      assert availableSlots[..j] == availableSlots;
    }

    /**
     * `send_email_notification`: gather the reported lines of the results
     * file, build the text and HTML bodies and send the email. Nothing is sent
     * when emails are off, or when a summary entry cannot be cut out.
     */
    method SendEmail(stamp: string, name: Field, code: Field)
      modifies this`alerts
      ensures alerts == old(alerts) + EmailAlerts(args, stamp, OrElse(name, batchName), OrElse(code, batchCode), log)
    {
      if args.noEmail {
        return;
      }
      var emailName := OrElse(name, batchName);
      var emailCode := OrElse(code, batchCode);
      var availableSlots := CollectReported(log);
      var summary := BuildSummary(availableSlots);
      if summary.None? {
        // The source's `[1]` raises here and the email is not sent.
        return;
      }
      var text := "HSA Exam Slots Available as of " + stamp + "\n\n" + BatchHeading(emailName, emailCode)
        + "Available slots summary:\n" + summary.value + "\n\nCheck https://id.hsa.edu.vn to register now.";
      var items := BuildItems(availableSlots);
      var html := "<html><body>" + "<h1>HSA Exam Slots Available!</h1>"
        + "<p>As of " + stamp + ", the following locations have available slots:</p>"
        + HtmlHeading(emailName, emailCode) + "<ul>" + items + "</ul>"
        + "<p>Visit <a href='https://id.hsa.edu.vn'>id.hsa.edu.vn</a> to register now!</p>"
        + "</body></html>";
      assert TextBody(stamp, emailName, emailCode, log) == Some(text);
      assert HtmlBody(stamp, emailName, emailCode, log) == html;
      alerts := alerts + [Email(args.email, Subject, text, html)];
    }

    /** Notify when found, otherwise log that nothing was found; then the closing lines. */
    method Conclude(clock: Clock, nothingFound: string)
      modifies this`log, this`alerts
      ensures Snapshot() == Checks.Conclude(args, old(Snapshot()), clock, nothingFound)
    {
      if availableFound {
        Notify(clock.stamp);
      } else {
        Log(clock.stamp, nothingFound);
      }
      ghost var body := log;
      Log(clock.stamp, Equals68);
      Log(clock.stamp, "Check completed at " + clock.instant);
      AppendTwo(body, LogLine(clock.stamp, Equals68), LogLine(clock.stamp, "Check completed at " + clock.instant));
    }

    /** The notifications of a check that found sessions: the email unless it is off, then the sound. */
    method Notify(stamp: string)
      modifies this`alerts
      ensures alerts == old(alerts) + Notifications(args, Snapshot(), stamp)
    {
      assert OrElse(None, batchName) == batchName && OrElse(None, batchCode) == batchCode;
      if !args.noEmail {
        SendEmail(stamp, None, None);
      }
      ghost var email := EmailAlerts(args, stamp, batchName, batchCode, log);
      assert alerts == old(alerts) + email;
      PlaySound();
      AppendAssoc(old(alerts), email, [Sound]);
    }

    /** The summary `run_check` logs after checking every matching batch. */
    method LogOverallSummary(stamp: string, checked: nat, withSlots: nat)
      modifies this`log
      ensures log == old(log) + OverallSummary(stamp, checked, withSlots)
    {
      Log(stamp, Equals68);
      Log(stamp, "OVERALL RESULTS SUMMARY:");
      Log(stamp, Equals68);
      Log(stamp, "Total batches checked: " + IntToString(checked));
      Log(stamp, "Batches with available slots: " + IntToString(withSlots));
      Log(stamp, Dashes68);
    }

    /** One pass of the batch loop of `run_check`: the batch's check, then a separator. */
    method CheckOneBatch(svc: Service, stamp: string, listed: string, batch: Batch) returns (ok: bool)
      modifies this`log
      ensures log == old(log) + BatchChunk(args, stamp, listed, svc, batch)
      ensures ok == BatchFound(args, svc, batch.id)
    {
      ok := RunCheckForBatch(svc, stamp, listed, batch.id, batch.name, batch.code);
      ghost var checked := log;
      Log(stamp, Dashes67);
      AppendAssoc(old(log), checked[|old(log)|..], [LogLine(stamp, Dashes67)]);
    }

    /**
     * The batch loop of `run_check`: each batch's check and a separator; the
     * result is `batches_with_slots`, and the flag is set when it is positive.
     */
    method CheckEachBatch(svc: Service, stamp: string, listed: string, matching: seq<Batch>)
      returns (totalBatchesChecked: nat, batchesWithSlots: nat)
      modifies this`log, this`availableFound
      ensures log == old(log) + BatchesLines(args, stamp, listed, svc, matching)
      ensures totalBatchesChecked == |matching|
      ensures batchesWithSlots == BatchesWithSlots(args, svc, matching)
      ensures availableFound == (old(availableFound) || batchesWithSlots > 0)
    {
      totalBatchesChecked := 0;
      batchesWithSlots := 0;
      var k := 0;
      while k < |matching|
        invariant 0 <= k <= |matching|
        invariant log == old(log) + BatchesLines(args, stamp, listed, svc, matching[..k])
        invariant totalBatchesChecked == k
        invariant batchesWithSlots == BatchesWithSlots(args, svc, matching[..k])
        invariant availableFound == (old(availableFound) || batchesWithSlots > 0)
      {
        var batch := matching[k];
        totalBatchesChecked := totalBatchesChecked + 1;
        BatchesStep(args, stamp, listed, svc, matching, k);
        var ok := CheckOneBatch(svc, stamp, listed, batch);
        AppendAssoc(old(log), BatchesLines(args, stamp, listed, svc, matching[..k]), BatchChunk(args, stamp, listed, svc, batch));
        if ok {
          batchesWithSlots := batchesWithSlots + 1;
          availableFound := true;
        }
        k := k + 1;
      }
      assert matching[..k] == matching;
    }

    /** The all-batches branch of `run_check`, once some batch has the status. */
    method CheckBatches(svc: Service, stamp: string, listed: string, matching: seq<Batch>)
      modifies this`log, this`availableFound
      ensures log == old(log) + AllBatchesLines(args, stamp, listed, svc, matching)
      ensures availableFound == (BatchesWithSlots(args, svc, matching) > 0)
    {
      Log(stamp, "Checking " + IntToString(|matching|) + " batches with status '" + args.status + "'");
      ghost var notice := log;
      availableFound := false;
      var totalBatchesChecked, batchesWithSlots := CheckEachBatch(svc, stamp, listed, matching);
      ghost var checked := log;
      LogOverallSummary(stamp, totalBatchesChecked, batchesWithSlots);
      ghost var first := [LogLine(stamp, "Checking " + IntToString(|matching|) + " batches with status '" + args.status + "'")];
      ghost var lines := BatchesLines(args, stamp, listed, svc, matching);
      ghost var summary := OverallSummary(stamp, |matching|, BatchesWithSlots(args, svc, matching));
      AppendAssoc(old(log), first, lines);
      AppendAssoc(old(log), first + lines, summary);
    }

    /** The three header lines of `run_check`. */
    method LogRunHeader(stamp: string)
      modifies this`log
      ensures log == old(log) + RunHeader(stamp)
    {
      Log(stamp, Equals67);
      Log(stamp, "STARTING SLOT CHECK");
      Log(stamp, Equals67);
    }

    /**
     * `run_check`: the state afterwards is `CheckRun`'s; the result is whether
     * sessions were found, and false when no batch has the status.
     */
    method RunCheck(m: Moment) returns (found: bool)
      modifies this`log, this`alerts, this`availableFound
      ensures Snapshot() == CheckRun(args, old(Snapshot()), m)
      ensures found == (availableFound && !(args.allBatches && Matching(BatchesOf(m.service, Render(periodId)), args.status) == []))
    {
      ghost var st := Snapshot();
      var stamp := m.clock.stamp;
      var listed := m.clock.listed;
      LogRunHeader(stamp);
      ghost var header := log;
      if args.allBatches {
        var batchesResponse := BatchesOf(m.service, Render(periodId));
        var matching := Matching(batchesResponse, args.status);
        if matching == [] {
          Log(stamp, "No batches with status '" + args.status + "' found.");
          return false;
        }
        CheckBatches(m.service, stamp, listed, matching);
        AppendAssoc(st.log, RunHeader(stamp), AllBatchesLines(args, stamp, listed, m.service, matching));
        assert Snapshot() == AllBatchesChecked(args, st, m, matching);
        Conclude(m.clock, "No available slots found in any batch.");
      } else {
        availableFound := RunCheckForBatch(m.service, stamp, listed, batchId, batchName, batchCode);
        AppendAssoc(st.log, RunHeader(stamp), BatchCheckLines(args, stamp, listed, m.service, batchId, batchName, batchCode));
        assert Snapshot() == SingleBatchChecked(args, st, m);
        Conclude(m.clock, "No available slots found.");
      }
      found := availableFound;
    }

    /** The batch-by-code loop of `run`: the first batch whose code is the checker's. */
    method FindBatchByCode(batches: seq<Batch>) returns (index: Option<nat>)
      ensures index == First(batches, CodeIs(batchCode))
    {
      var k := 0;
      while k < |batches|
        invariant 0 <= k <= |batches|
        invariant forall j :: 0 <= j < k ==> !CodeIs(batchCode)(batches[j])
      {
        if batches[k].code == batchCode {
          assert CodeIs(batchCode)(batches[k]);
          return Some(k);
        }
        k := k + 1;
      }
      return None;
    }

    /**
     * The batch choice of `run`: by the checker's code, or the first OPENING
     * batch when it has none. A chosen batch's identifier and name are taken,
     * and its code when the checker had none.
     */
    method ChooseBatch(batches: seq<Batch>) returns (ok: bool)
      modifies this`batchId, this`batchName, this`batchCode
      ensures var sel := SelectBatch(old(batchCode), batches);
        && ok == sel.Chosen?
        && (ok ==> batchId == sel.batch.id && batchName == sel.batch.name
                   && batchCode == if Truthy(old(batchCode)) then old(batchCode) else sel.batch.code)
        && (!ok ==> batchId == old(batchId) && batchName == old(batchName) && batchCode == old(batchCode))
    {
      if Truthy(batchCode) {
        var index := FindBatchByCode(batches);
        if index.None? {
          return false;
        }
        var batch := batches[index.value];
        batchId := batch.id;
        batchName := batch.name;
      } else {
        var openingBatches := Matching(batches, "OPENING");
        if openingBatches == [] {
          return false;
        }
        var batch := openingBatches[0];
        batchId := batch.id;
        batchName := batch.name;
        batchCode := batch.code;
      }
      return true;
    }

    /** The monitor loop of `run`: one `run_check` per moment, in order. */
    method MonitorMoments(moments: seq<Moment>)
      modifies this`log, this`alerts, this`availableFound
      ensures Snapshot() == Monitor(args, old(Snapshot()), moments)
    {
      ghost var chosen := Snapshot();
      var k := 0;
      while k < |moments|
        invariant 0 <= k <= |moments|
        invariant Snapshot() == Monitor(args, chosen, moments[..k])
      {
        MonitorStep(args, chosen, moments, k);
        var _ := RunCheck(moments[k]);
        k := k + 1;
      }
      assert moments[..k] == moments;
    }

    /** The checks of `run`: one `run_check`, or one per moment while monitoring. */
    method CheckOnceOrMonitor(first: Moment, more: seq<Moment>)
      modifies this`log, this`alerts, this`availableFound
      ensures Snapshot() == Checking(args, old(Snapshot()), first, more)
    {
      if args.monitor {
        MonitorMoments([first] + more);
      } else {
        var _ := RunCheck(first);
      }
    }

    /**
     * `run`: take the first period, choose the batch unless all batches are
     * checked, then check once, or once per moment while monitoring.
     */
    method Run(start: Service, first: Moment, more: seq<Moment>) returns (ok: bool)
      modifies this
      ensures Outcome(ok, Snapshot()) == RunOutcome(args, old(Snapshot()), start, first, more)
    {
      if start.periods == [] {
        return false;
      }
      periodId := start.periods[0].id;
      var batchesResponse := BatchesOf(start, Render(periodId));
      if args.showBatches {
        return true;
      }
      if !args.allBatches {
        ok := ChooseBatch(batchesResponse);
        if !ok {
          return false;
        }
      }
      CheckOnceOrMonitor(first, more);
      return true;
    }
  }
}
