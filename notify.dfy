/**
 * The notification the checker sends when it finds sessions: an email whose
 * plain-text and HTML bodies are rebuilt from the "available" lines of the
 * result log, and an audible alert.
 */
module Notify {
  import opened Wrappers
  import opened PyStr
  import opened Records

  /** What the checker hands to the mail service or the sound player. */
  datatype Alert =
    | Email(to: string, subject: string, text: string, html: string)
    | Sound

  const Subject := "HSA Exam Slots Available!"

  /** A log line the email reports: it mentions "✓", "has" and "available". */
  predicate ReportsAvailability(line: string) {
    Contains(line, "✓") && Contains(line, "has") && Contains(line, "available")
  }

  /** The lines that pass `keep`, stripped, in their order. */
  function KeepStripped(lines: seq<string>, keep: string -> bool): (r: seq<string>)
    ensures |r| <= |lines|
  {
    if lines == [] then []
    else
      var init := lines[..|lines| - 1];
      var last := lines[|lines| - 1];
      if keep(last) then KeepStripped(init, keep) + [Strip(last)] else KeepStripped(init, keep)
  }

  /** Exactly the stripped lines that pass the test are kept. */
  lemma {:induction false} KeepStrippedExact(lines: seq<string>, keep: string -> bool, line: string)
    ensures line in KeepStripped(lines, keep) <==>
      exists j :: 0 <= j < |lines| && keep(lines[j]) && line == Strip(lines[j])
  {
    if lines != [] {
      var init := lines[..|lines| - 1];
      var last := lines[|lines| - 1];
      var before := KeepStripped(init, keep);
      KeepStrippedExact(init, keep, line);
      if line in KeepStripped(lines, keep) {
        if line in before {
          var j :| 0 <= j < |init| && keep(init[j]) && line == Strip(init[j]);
          assert init[j] == lines[j];
        } else {
          assert keep(last) && KeepStripped(lines, keep) == before + [Strip(last)];
          assert keep(lines[|lines| - 1]) && line == Strip(lines[|lines| - 1]);
        }
      } else {
        forall j | 0 <= j < |lines| ensures !(keep(lines[j]) && line == Strip(lines[j])) {
          if j < |init| {
            assert init[j] == lines[j];
          } else if keep(last) {
            assert KeepStripped(lines, keep) == before + [Strip(last)];
          }
        }
      }
    }
  }

  /** The log lines the email summarises (the loop that re-reads the results file). */
  function ReportedLines(log: seq<string>): seq<string> {
    KeepStripped(log, ReportsAvailability)
  }

  /** The summary entry for a line as the source computes it: everything after the first space. */
  function SummaryEntryAsWritten(line: string): (r: Option<string>)
    ensures r.Some? <==> Contains(line, " ")
    ensures r.Some? ==> var k := |line| - |r.value| - 1;
      0 <= k && line[k] == ' ' && line[k + 1..] == r.value && ' ' !in line[..k]
  {
    FindLeftmost(line, " ");
    var parts := SplitMax(line, " ", 1);
    if |parts| > 1 then
      var i := Find(line, " ").value;
      assert forall p :: 0 <= p < i ==> line[p..p + 1] == [line[p]] && !OccursAt(line, " ", p);
      assert forall p :: 0 <= p < i ==> line[..i][p] == line[p];
      Some(parts[1])
    else None
  }

  /**
   * The summary entry with the whole `YYYY-MM-DD HH:MM:SS` timestamp removed:
   * everything after the second space, or after the only one. None exactly
   * where the source's expression raises.
   */
  function SummaryEntry(line: string): Option<string> {
    var parts := SplitMax(line, " ", 2);
    if |parts| > 2 then Some(parts[2])
    else if |parts| > 1 then Some(parts[1])
    else None
  }

  /** The corrected entry fails on the same lines as the source's: those without a space. */
  lemma SummaryEntryFailsAlike(line: string)
    ensures SummaryEntry(line).None? <==> SummaryEntryAsWritten(line).None?
    ensures SummaryEntry(line).None? <==> !Contains(line, " ")
  {
  }

  /**
   * The entries as the source writes them, one per line; None when some line
   * has no space (the source's `[1]` raises and the send fails).
   */
  function SummaryText(lines: seq<string>): Option<string> {
    if lines == [] then Some("")
    else
      match (SummaryText(lines[..|lines| - 1]), SummaryEntryAsWritten(lines[|lines| - 1]))
      case (Some(head), Some(entry)) => Some(head + entry + "\n")
      case _ => None
  }

  /** One line without an entry makes the whole summary fail, wherever it is. */
  lemma {:induction false} SummaryTextFails(lines: seq<string>, j: nat)
    requires j < |lines| && SummaryEntryAsWritten(lines[j]).None?
    ensures SummaryText(lines) == None
  {
    var init := lines[..|lines| - 1];
    if j < |init| {
      assert init[j] == lines[j];
      SummaryTextFails(init, j);
    }
  }

  /** The summary is built exactly when every reported line holds a space. */
  lemma {:induction false} SummaryTextExists(lines: seq<string>)
    ensures SummaryText(lines).Some? <==> forall j :: 0 <= j < |lines| ==> Contains(lines[j], " ")
  {
    if lines != [] {
      var init := lines[..|lines| - 1];
      SummaryTextExists(init);
      assert forall j :: 0 <= j < |init| ==> init[j] == lines[j];
    }
  }

  /** Reading back a longer file reports the lines of the shorter one first. */
  lemma {:induction false} KeepStrippedAppend(a: seq<string>, b: seq<string>, keep: string -> bool)
    ensures KeepStripped(a + b, keep) == KeepStripped(a, keep) + KeepStripped(b, keep)
  {
    if b == [] {
      assert a + b == a;
    } else {
      var init := b[..|b| - 1];
      KeepStrippedAppend(a, init, keep);
      assert (a + b)[..|a + b| - 1] == a + init;
      assert (a + b)[|a + b| - 1] == b[|b| - 1];
    }
  }

  /** Which batch the email names: one with both a name and a code, or several. */
  function BatchHeading(name: Field, code: Field): string {
    if Truthy(name) && Truthy(code) then "Batch: " + name.value + " (Code: " + code.value + ")\n\n"
    else "Multiple batches have available slots\n\n"
  }

  function TextBody(stamp: string, name: Field, code: Field, log: seq<string>): (r: Option<string>)
    ensures r.Some? <==> SummaryText(ReportedLines(log)).Some?
  {
    match SummaryText(ReportedLines(log))
    case None => None
    case Some(summary) =>
      Some("HSA Exam Slots Available as of " + stamp + "\n\n" + BatchHeading(name, code)
        + "Available slots summary:\n" + summary + "\n\nCheck https://id.hsa.edu.vn to register now.")
  }

  /**
   * The HTML list item for a reported line: split off the text after " ✓ ",
   * then the location before " (ID: ", then the identifier before ") has ",
   * and drop " available" from the rest. None unless all three splits cut.
   */
  function HtmlItem(line: string): (r: Option<string>)
    ensures r.Some? ==> Contains(line, " ✓ ") && Contains(line, " (ID: ") && Contains(line, ") has ")
    ensures r.Some? ==> StartsWith(r.value, "<li><strong>")
  {
    var parts := SplitMax(line, " ✓ ", 1);
    if |parts| > 1 then
      var locationInfo := Split(parts[1], " (ID: ");
      if |locationInfo| > 1 then
        var idAndSlots := Split(locationInfo[1], ") has ");
        if |idAndSlots| > 1 then
          var i := Find(line, " ✓ ").value;
          assert parts[1] == line[i + 3..];
          ContainsSuffix(line, i + 3, " (ID: ");
          SplitSecondInside(parts[1], " (ID: ", ") has ");
          ContainsSuffix(line, i + 3, ") has ");
          Some("<li><strong>" + locationInfo[0] + "</strong> (ID: " + idAndSlots[0] + "): "
            + Replace(idAndSlots[1], " available", "") + " available sessions</li>")
        else None
      else None
    else None
  }

  function HtmlItems(lines: seq<string>): string {
    if lines == [] then ""
    else HtmlItems(lines[..|lines| - 1]) + HtmlItem(lines[|lines| - 1]).GetOr("")
  }

  function HtmlHeading(name: Field, code: Field): string {
    if Truthy(name) && Truthy(code) then "<p><strong>Batch:</strong> " + name.value + " (Code: " + code.value + ")</p>"
    else "<p><strong>Multiple batches have available slots</strong></p>"
  }

  function HtmlBody(stamp: string, name: Field, code: Field, log: seq<string>): string {
    "<html><body>" + "<h1>HSA Exam Slots Available!</h1>"
      + "<p>As of " + stamp + ", the following locations have available slots:</p>"
      + HtmlHeading(name, code) + "<ul>" + HtmlItems(ReportedLines(log)) + "</ul>"
      + "<p>Visit <a href='https://id.hsa.edu.vn'>id.hsa.edu.vn</a> to register now!</p>"
      + "</body></html>"
  }

  /** The email built from the log, or None when building the text body fails. */
  function EmailFor(to: string, stamp: string, name: Field, code: Field, log: seq<string>): (r: Option<Alert>)
    ensures r.Some? ==> r.value.Email? && r.value.to == to && r.value.subject == Subject
    ensures r.Some? <==> TextBody(stamp, name, code, log).Some?
  {
    match TextBody(stamp, name, code, log)
    case None => None
    case Some(text) => Some(Email(to, Subject, text, HtmlBody(stamp, name, code, log)))
  }
}
