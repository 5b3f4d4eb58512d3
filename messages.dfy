/** The text of the lines the checker writes to its result log. */
module Messages {
  import opened PyStr
  import opened Records
  import opened Logging

  const Dashes67 := "-------------------------------------------------------------------"
  const Dashes68 := "--------------------------------------------------------------------"
  const Equals67 := "==================================================================="
  const Equals68 := "===================================================================="

  /** `[code] ` before a slot's name when the batch has a code. */
  function BatchPrefix(code: Field): string {
    if Truthy(code) then "[" + code.value + "] " else ""
  }

  /** ` for NAME (Code: CODE)` after a location when the batch has both. */
  function BatchInfo(name: Field, code: Field): string {
    if Truthy(name) && Truthy(code) then " for " + name.value + " (Code: " + code.value + ")" else ""
  }

  /** One available session: `STAMP → [CODE] NAME (ID: ID): AVAILABLE/TOTAL`. */
  function SlotLine(stamp: string, code: Field, s: Slot): string {
    stamp + " → " + SlotEntry(code, s)
  }

  function SlotEntry(code: Field, s: Slot): string {
    BatchPrefix(code) + Render(s.name) + " (ID: " + Render(s.id) + "): "
      + IntToString(Available(s)) + "/" + IntToString(Seats(s))
  }

  /** A session line starts with the reading it was built with. */
  lemma SlotLineStamped(stamp: string, code: Field, s: Slot)
    ensures StartsWith(SlotLine(stamp, code, s), stamp)
  {
    assert (stamp + " → " + SlotEntry(code, s))[..|stamp|] == stamp;
  }

  /**
   * `_log` writes a session line as it was built when the two readings agree,
   * and puts its own reading in front when the second has changed since.
   */
  lemma SlotLineLogged(stamp: string, listed: string, code: Field, s: Slot)
    requires IsStamp(stamp) && IsStamp(listed)
    ensures LogLine(stamp, SlotLine(listed, code, s))
      == if listed == stamp then SlotLine(listed, code, s) else stamp + " " + SlotLine(listed, code, s)
  {
    SlotLineStamped(listed, code, s);
    var line := SlotLine(listed, code, s);
    assert StartsWith(line, stamp) <==> line[..19] == stamp;
  }

  function FailedFetchMessage(locationName: string, locationId: string): string {
    "× Failed to fetch slots for " + locationName + " (ID: " + locationId + ")"
  }

  function NoSlotsMessage(locationName: string, locationId: string, info: string): string {
    "× No available slots at " + locationName + " (ID: " + locationId + ")" + info
  }

  /** The summary of a location with sessions left; the email is built by re-reading these lines. */
  function SuccessMessage(locationName: string, locationId: string, info: string, count: int): string {
    "✓ " + locationName + " (ID: " + locationId + ")" + info + " has " + IntToString(count) + " available session(s):"
  }

  /** The summary line of a location determines the number of sessions it reports. */
  lemma SuccessMessageCount(locationName: string, locationId: string, info: string, a: int, b: int)
    requires SuccessMessage(locationName, locationId, info, a) == SuccessMessage(locationName, locationId, info, b)
    ensures a == b
  {
    var head := "✓ " + locationName + " (ID: " + locationId + ")" + info + " has ";
    var tail := " available session(s):";
    var x := IntToString(a);
    var y := IntToString(b);
    assert SuccessMessage(locationName, locationId, info, a) == head + (x + tail);
    assert SuccessMessage(locationName, locationId, info, b) == head + (y + tail);
    assert x + tail == (head + (x + tail))[|head|..];
    assert y + tail == (head + (y + tail))[|head|..];
    assert x == (x + tail)[..|x + tail| - |tail|];
    assert y == (y + tail)[..|y + tail| - |tail|];
    ParseIntToString(a);
    ParseIntToString(b);
  }
}
