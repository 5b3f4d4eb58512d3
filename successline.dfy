/**
 * The email is built by re-reading the log, so the shape of the success line
 * that `check_slots` writes decides what the email says. These lemmas take a
 * success line apart the way the email code does.
 */
module SuccessLines {
  import opened Wrappers
  import opened PyStr
  import opened Records
  import opened Logging
  import opened Messages
  import opened Notify

  /** No character `c` directly followed by `d`. */
  predicate NoPair(s: string, c: char, d: char) {
    forall q :: 0 <= q < |s| - 1 ==> !(s[q] == c && s[q + 1] == d)
  }

  lemma NoPairAppend(a: string, b: string, c: char, d: char)
    requires NoPair(a, c, d) && NoPair(b, c, d)
    requires a != [] && b != [] ==> !(a[|a| - 1] == c && b[0] == d)
    ensures NoPair(a + b, c, d)
  {
    var s := a + b;
    forall q | 0 <= q < |s| - 1
      ensures !(s[q] == c && s[q + 1] == d)
    {
      if q + 1 < |a| {
        assert s[q] == a[q] && s[q + 1] == a[q + 1];
      } else if q + 1 == |a| {
        assert s[q] == a[|a| - 1] && s[q + 1] == b[0];
      } else {
        assert s[q] == b[q - |a|] && s[q + 1] == b[q - |a| + 1];
      }
    }
  }

  /** A separator containing the pair `c d` cannot occur where that pair never does. */
  lemma NoPairExcludes(s: string, sep: string, k: nat)
    requires k + 1 < |sep| && NoPair(s, sep[k], sep[k + 1])
    ensures Find(s, sep) == None
  {
    forall p: nat ensures !OccursAt(s, sep, p) {
      if p + |sep| <= |s| {
        if s[p + k] != sep[k] {
          MismatchAt(s, sep, p, k);
        } else {
          MismatchAt(s, sep, p, k + 1);
        }
      }
    }
    FindLeftmost(s, sep);
  }

  lemma StampFacts(ts: string)
    requires IsStamp(ts)
    ensures '✓' !in ts && '0' <= ts[0] <= '9'
    ensures forall i :: 0 <= i < |ts| ==> (ts[i] == ' ' <==> i == 10)
  {
    forall i | 0 <= i < |ts| ensures ts[i] != '✓' {
    }
  }

  /** A message not starting with the stamp is logged as `stamp + " " + message`. */
  lemma StampedLine(ts: string, m: string)
    requires IsStamp(ts) && m != [] && !('0' <= m[0] <= '9')
    ensures LogLine(ts, m) == ts + " " + m
  {
    StampFacts(ts);
  }

  /** How `split(' ')` cuts a logged line: at the space inside the timestamp, then at the one after it. */
  lemma StampSplits(ts: string, m: string)
    requires IsStamp(ts)
    ensures SplitMax(ts + " " + m, " ", 2) == [ts[..10], ts[11..], m]
    ensures SplitMax(ts + " " + m, " ", 1) == [ts[..10], ts[11..] + " " + m]
  {
    StampFacts(ts);
    var line := ts + " " + m;
    forall p | 0 <= p < 10 ensures !OccursAt(line, " ", p) {
      MismatchAt(line, " ", p, 0);
    }
    assert OccursAt(line, " ", 10);
    FindIs(line, " ", 10);
    var rest := line[11..];
    assert rest == ts[11..] + " " + m;
    forall p | 0 <= p < 8 ensures !OccursAt(rest, " ", p) {
      assert rest[p] == ts[11 + p];
      MismatchAt(rest, " ", p, 0);
    }
    assert OccursAt(rest, " ", 8);
    FindIs(rest, " ", 8);
    assert rest[9..] == m && rest[..8] == ts[11..] && line[..10] == ts[..10];
    assert SplitMax(rest, " ", 1) == [rest[..8]] + SplitMax(m, " ", 0);
    assert SplitMax(line, " ", 2) == [line[..10]] + SplitMax(rest, " ", 1);
    assert SplitMax(line, " ", 1) == [line[..10]] + SplitMax(rest, " ", 0);
  }

  /** The plain-text summary entry of a logged line, with the whole timestamp removed, is the message itself. */
  lemma SummaryEntryOfLine(ts: string, m: string)
    requires IsStamp(ts)
    ensures SummaryEntry(ts + " " + m) == Some(m)
  {
    StampSplits(ts, m);
  }

  /** The entry as the source computes it keeps the time of day in front of the message. */
  lemma SummaryEntryKeepsTime(ts: string, m: string)
    requires IsStamp(ts)
    ensures SummaryEntryAsWritten(ts + " " + m) == Some(ts[11..] + " " + m)
    ensures SummaryEntryAsWritten(ts + " " + m) != Some(m)
  {
    StampSplits(ts, m);
    assert |ts[11..] + " " + m| > |m|;
  }

  /** What follows the location's identifier up to " has " in the HTML item. */
  function IdTail(name: Field, code: Field): string {
    if Truthy(name) && Truthy(code) then ") for " + name.value + " (Code: " + code.value else ""
  }

  /**
   * Splitting `x + sep` on `sep` cuts right after `x`: no occurrence of `sep`
   * starts inside `x` or straddles its end.
   */
  predicate CutsAfter(x: string, sep: string) {
    Find(x + sep, sep) == Some(|x|)
  }

  /**
   * What the email's cuts need of a success line's fields: the location name
   * ends at the first " (ID: ", and the text between it and " has " (the
   * identifier, then the batch name and code when both are set) holds no
   * " (ID: " and ends at the first ") has ". Parentheses as such are allowed.
   */
  predicate Itemisable(loc: string, id: string, name: Field, code: Field) {
    && CutsAfter(loc, " (ID: ")
    && !Contains(id + IdTail(name, code), " (ID: ")
    && CutsAfter(id + IdTail(name, code), ") has ")
  }

  /** Where `sep` first occurs right after `x`, `split` cuts `x` off first, whatever follows. */
  lemma CutsAfterSplit(x: string, sep: string, y: string)
    requires sep != "" && CutsAfter(x, sep)
    ensures Split(x + sep + y, sep) == [x] + Split(y, sep)
    ensures SplitMax(x + sep + y, sep, 1) == [x, y]
  {
    FindLeftmost(x + sep, sep);
    forall p | 0 <= p < |x| ensures !OccursAt(x + sep + y, sep, p) {
      assert !OccursAt(x + sep, sep, p);
      assert (x + sep + y)[p..p + |sep|] == (x + sep)[p..p + |sep|];
    }
    SplitFirst(x, sep, y);
  }

  /** Text without "(" directly followed by "I" holds no " (ID: " and ends at the first one appended. */
  lemma IdMarkerCut(x: string)
    requires NoPair(x, '(', 'I')
    ensures CutsAfter(x, " (ID: ") && !Contains(x, " (ID: ")
  {
    var sep := " (ID: ";
    var s := x + sep;
    forall p | 0 <= p < |x| ensures !OccursAt(s, sep, p) {
      if s[p + 1] != '(' {
        MismatchAt(s, sep, p, 1);
      } else {
        assert p + 2 < |x| ==> s[p + 1] == x[p + 1] && s[p + 2] == x[p + 2];
        MismatchAt(s, sep, p, 2);
      }
    }
    assert s[|x|..|x| + |sep|] == sep;
    FindIs(s, sep, |x|);
    NoPairExcludes(x, sep, 1);
  }

  /** Text without an "h" ends at the first ") has " appended to it. */
  lemma HasMarkerCut(x: string)
    requires 'h' !in x
    ensures CutsAfter(x, ") has ")
  {
    var sep := ") has ";
    var s := x + sep;
    forall p | 0 <= p < |x| ensures !OccursAt(s, sep, p) {
      if p + 1 == |x| {
        MismatchAt(s, sep, p, 1);
      } else {
        assert p + 2 < |x| ==> s[p + 2] == x[p + 2] && x[p + 2] in x;
        MismatchAt(s, sep, p, 2);
      }
    }
    assert s[|x|..|x| + |sep|] == sep;
    FindIs(s, sep, |x|);
  }

  lemma BatchRegroup(id: string, b: string, v: string)
    ensures id + ")" + (b + ")") + " has " + v == id + ")" + b + ") has " + v
    ensures id + ")" + b + ") has " + v == id + (")" + b) + ") has " + v
  {
    AppendAssoc(id + ")", b, ")");
    AppendAssoc(id + ")" + b, ")", " has ");
    AppendAssoc(id, ")", b);
  }

  lemma AloneRegroup(id: string, v: string)
    ensures id + ")" + "" + " has " + v == id + ") has " + v
    ensures id + "" + ") has " + v == id + ") has " + v
  {
    assert id + ")" + "" == id + ")";
    assert id + "" == id;
    AppendAssoc(id, ")", " has ");
  }

  /** The text after " (ID: " in a success line: the identifier text, then ") has " and the count. */
  lemma IdSegment(id: string, name: Field, code: Field, v: string)
    ensures id + ")" + BatchInfo(name, code) + " has " + v == id + IdTail(name, code) + ") has " + v
  {
    if Truthy(name) && Truthy(code) {
      var b := " for " + name.value + " (Code: " + code.value;
      assert BatchInfo(name, code) == b + ")";
      assert IdTail(name, code) == ")" + b;
      BatchRegroup(id, b, v);
    } else {
      assert BatchInfo(name, code) == "" && IdTail(name, code) == "";
      AloneRegroup(id, v);
    }
  }

  lemma NoPairWithout(s: string, c: char, d: char)
    requires c !in s
    ensures NoPair(s, c, d)
  {
    forall q | 0 <= q < |s| - 1 ensures s[q] != c {
      assert s[q] in s;
    }
  }

  /** The count text holds no " (ID: ". */
  lemma CountHasNoIdMarker(n: string)
    requires '(' !in n
    ensures NoPair(n + " available session(s):", '(', 'I')
  {
    NoPairWithout(n, '(', 'I');
    NoPairAppend(n, " available session(s):", '(', 'I');
  }

  /** The count text ends the line and holds no ") has ". */
  lemma CountHasNoIdEnd(n: string)
    requires ')' !in n
    ensures Split(n + " available session(s):", ") has ") == [n + " available session(s):"]
  {
    NoPairWithout(n, ')', ' ');
    NoPairAppend(n, " available session(s):", ')', ' ');
    NoPairExcludes(n + " available session(s):", ") has ", 0);
  }

  /** Dropping " available" from the count text. */
  lemma CountWithoutAvailable(n: string, rest: string)
    requires ' ' !in n && NoPair(rest, ' ', 'a')
    ensures Replace(n + " available" + rest, " available", "") == n + rest
  {
    var sep := " available";
    var v := n + sep + rest;
    forall p | 0 <= p < |n| ensures !OccursAt(v, sep, p) {
      assert v[p] == n[p];
      MismatchAt(v, sep, p, 0);
    }
    ReplaceFirst(n, sep, "", rest);
    NoPairExcludes(rest, sep, 0);
    assert Replace(rest, sep, "") == rest;
    assert n + "" == n;
  }

  lemma CountWords()
    ensures " available session(s):" == " available" + " session(s):"
    ensures NoPair(" session(s):", ' ', 'a')
  {
  }

  /** The count text with " available" dropped. */
  lemma CountText(n: string)
    requires ' ' !in n
    ensures Replace(n + " available session(s):", " available", "") == n + " session(s):"
  {
    CountWords();
    CountWithoutAvailable(n, " session(s):");
    assert n + " available session(s):" == n + " available" + " session(s):";
  }

  /** The first " ✓ " of a logged success line follows the timestamp. */
  lemma StampThenMark(ts: string, r: string)
    requires IsStamp(ts)
    ensures SplitMax(ts + " ✓ " + r, " ✓ ", 1) == [ts, r]
  {
    StampFacts(ts);
    var line := ts + " ✓ " + r;
    forall p | 0 <= p < |ts| ensures !OccursAt(line, " ✓ ", p) {
      if p + 1 < |ts| {
        assert line[p + 1] == ts[p + 1];
      } else {
        assert line[p + 1] == ' ';
      }
      MismatchAt(line, " ✓ ", p, 1);
    }
    SplitFirst(ts, " ✓ ", r);
  }

  /** The success message, grouped the way the email code takes it apart. */
  lemma MessageShape(loc: string, id: string, info: string, count: int)
    ensures SuccessMessage(loc, id, info, count)
      == "✓ " + (loc + " (ID: " + (id + ")" + info + " has " + (IntToString(count) + " available session(s):")))
  {
  }

  lemma MarkShape(ts: string, r: string)
    ensures ts + " " + ("✓ " + r) == ts + " ✓ " + r
  {
  }

  /** The HTML item of a line whose three cuts are known. */
  lemma ItemOfParts(line: string, ts: string, r: string, loc: string, t: string, a: string, v: string)
    requires SplitMax(line, " ✓ ", 1) == [ts, r]
    requires Split(r, " (ID: ") == [loc, t]
    requires Split(t, ") has ") == [a, v]
    ensures HtmlItem(line) == Some("<li><strong>" + loc + "</strong> (ID: " + a + "): "
      + Replace(v, " available", "") + " available sessions</li>")
  {
  }

  /** From the ") has " before the count on, a success line holds no " (ID: ". */
  lemma CountTailNoIdMarker(n: string)
    requires '(' !in n
    ensures !Contains(") has " + (n + " available session(s):"), " (ID: ")
  {
    var v := n + " available session(s):";
    CountHasNoIdMarker(n);
    NoPairWithout(") has ", '(', 'I');
    NoPairAppend(") has ", v, '(', 'I');
    NoPairExcludes(") has " + v, " (ID: ", 1);
  }

  /** The cuts after the check mark of a success line. */
  lemma MessageCuts(loc: string, id: string, name: Field, code: Field, n: string)
    requires Itemisable(loc, id, name, code) && '(' !in n && ')' !in n
    ensures var v := n + " available session(s):";
      var t := id + ")" + BatchInfo(name, code) + " has " + v;
      && Split(loc + " (ID: " + t, " (ID: ") == [loc, t]
      && Split(t, ") has ") == [id + IdTail(name, code), v]
  {
    var v := n + " available session(s):";
    var a := id + IdTail(name, code);
    var t := id + ")" + BatchInfo(name, code) + " has " + v;
    IdSegment(id, name, code, v);
    CutsAfterSplit(loc, " (ID: ", t);
    // No " (ID: " in `a`, none from the ") has " after it on, none across the seam.
    CountTailNoIdMarker(n);
    NotFoundAcross(a, " (ID: ", ") has " + v);
    AppendAssoc(a, ") has ", v);
    assert Split(t, " (ID: ") == [t];
    CutsAfterSplit(a, ") has ", v);
    CountHasNoIdEnd(n);
  }

  /** The three cuts of a logged success line, and its count text without " available". */
  lemma LineCuts(ts: string, loc: string, id: string, name: Field, code: Field, count: int)
    requires IsStamp(ts) && Itemisable(loc, id, name, code)
    ensures var n := IntToString(count);
      var v := n + " available session(s):";
      var t := id + ")" + BatchInfo(name, code) + " has " + v;
      var r := loc + " (ID: " + t;
      && SplitMax(LogLine(ts, SuccessMessage(loc, id, BatchInfo(name, code), count)), " ✓ ", 1) == [ts, r]
      && Split(r, " (ID: ") == [loc, t]
      && Split(t, ") has ") == [id + IdTail(name, code), v]
      && Replace(v, " available", "") == n + " session(s):"
  {
    var info := BatchInfo(name, code);
    var n := IntToString(count);
    IntToStringChars(count);
    var msg := SuccessMessage(loc, id, info, count);
    var v := n + " available session(s):";
    var t := id + ")" + info + " has " + v;
    var r := loc + " (ID: " + t;
    assert SplitMax(LogLine(ts, msg), " ✓ ", 1) == [ts, r] by {
      MessageShape(loc, id, info, count);
      StampedLine(ts, msg);
      MarkShape(ts, r);
      StampThenMark(ts, r);
    }
    MessageCuts(loc, id, name, code, n);
    CountText(n);
  }

  /** The item's text, regrouped. */
  lemma ItemText(loc: string, a: string, b: string, n: string)
    ensures "<li><strong>" + loc + "</strong> (ID: " + (a + b) + "): " + (n + " session(s):") + " available sessions</li>"
      == "<li><strong>" + loc + "</strong> (ID: " + a + b + "): " + n + " session(s):" + " available sessions</li>"
  {
  }

  /**
   * The HTML item built from a success line: the location in bold, then
   * everything between " (ID: " and ") has " (the identifier, followed by the
   * batch name and code when the line names them), then the count.
   */
  lemma SuccessLineItem(ts: string, loc: string, id: string, name: Field, code: Field, count: int)
    requires IsStamp(ts) && Itemisable(loc, id, name, code)
    ensures HtmlItem(LogLine(ts, SuccessMessage(loc, id, BatchInfo(name, code), count)))
      == Some("<li><strong>" + loc + "</strong> (ID: " + id + IdTail(name, code) + "): "
              + IntToString(count) + " session(s):" + " available sessions</li>")
  {
    var n := IntToString(count);
    var v := n + " available session(s):";
    var t := id + ")" + BatchInfo(name, code) + " has " + v;
    var r := loc + " (ID: " + t;
    LineCuts(ts, loc, id, name, code, count);
    ItemOfParts(LogLine(ts, SuccessMessage(loc, id, BatchInfo(name, code), count)), ts, r, loc, t, id + IdTail(name, code), v);
    ItemText(loc, id, IdTail(name, code), n);
  }

  lemma MarkWords()
    ensures Contains("✓ ", "✓") && Contains(" has ", "has")
    ensures Contains(" available session(s):", "available")
  {
    OccursContains("✓ ", "✓", 0);
    OccursContains(" has ", "has", 1);
    OccursContains(" available session(s):", "available", 1);
  }

  /**
   * A logged success line is one the email reports, and stripping it changes
   * nothing.
   */
  lemma SuccessLineReported(ts: string, loc: string, id: string, info: string, count: int)
    requires IsStamp(ts)
    ensures var line := LogLine(ts, SuccessMessage(loc, id, info, count));
      ReportsAvailability(line) && Strip(line) == line
  {
    var n := IntToString(count);
    var msg := SuccessMessage(loc, id, info, count);
    StampedLine(ts, msg);
    StampFacts(ts);
    MarkWords();
    // "✓" opens the message.
    var m1 := "✓ " + loc;
    var m2 := m1 + " (ID: " + id + ")" + info;
    var m3 := m2 + " has ";
    var m4 := m3 + n;
    ContainsConcat("✓ ", loc, "✓");
    ContainsConcat(m1, " (ID: ", "✓");
    ContainsConcat(m1 + " (ID: ", id, "✓");
    ContainsConcat(m1 + " (ID: " + id, ")", "✓");
    ContainsConcat(m1 + " (ID: " + id + ")", info, "✓");
    ContainsConcat(m2, " has ", "✓");
    ContainsConcat(m2, " has ", "has");
    ContainsConcat(m3, n, "✓");
    ContainsConcat(m3, n, "has");
    ContainsConcat(m4, " available session(s):", "✓");
    ContainsConcat(m4, " available session(s):", "has");
    ContainsConcat(m4, " available session(s):", "available");
    ContainsConcat(ts + " ", msg, "✓");
    ContainsConcat(ts + " ", msg, "has");
    ContainsConcat(ts + " ", msg, "available");
    var line := ts + " " + msg;
    assert line[0] == ts[0] && line[|line| - 1] == ':';
    StripNoEnds(line);
  }

  lemma NoPairWithoutSecond(s: string, c: char, d: char)
    requires d !in s
    ensures NoPair(s, c, d)
  {
    forall q | 0 <= q < |s| - 1 ensures !(s[q] == c && s[q + 1] == d) {
      assert s[q + 1] in s;
    }
  }

  /** Letters enough to rule out a misplaced cut: no "(I" anywhere, and no "h" between " (ID: " and ") has ". */
  lemma ItemisableByLetters(loc: string, id: string, name: Field, code: Field)
    requires NoPair(loc, '(', 'I') && NoPair(id + IdTail(name, code), '(', 'I')
    requires 'h' !in id + IdTail(name, code)
    ensures Itemisable(loc, id, name, code)
  {
    IdMarkerCut(loc);
    IdMarkerCut(id + IdTail(name, code));
    HasMarkerCut(id + IdTail(name, code));
  }

  /** The location and batch names of the example below can be taken apart. */
  lemma ExampleItemisable(loc: string, name: string)
    requires loc == "Hanoi (Campus 2)" && name == "Dot 3 (05/2025)"
    ensures Itemisable(loc, "7", Some(name), Some("503"))
  {
    var a := "7" + IdTail(Some(name), Some("503"));
    assert a == "7) for " + name + " (Code: " + "503";
    assert 'I' !in loc && 'I' !in a && 'h' !in a;
    NoPairWithoutSecond(loc, '(', 'I');
    NoPairWithoutSecond(a, '(', 'I');
    ItemisableByLetters(loc, "7", Some(name), Some("503"));
  }

  /** `str(2)` */
  lemma TwoRendered()
    ensures IntToString(2) == "2"
  {
    assert "0123456789"[2] == '2';
  }

  /**
   * Parentheses in the location and batch names do not disturb the cuts: the
   * line for location "Hanoi (Campus 2)" in batch "Dot 3 (05/2025)" gives the
   * item that names them in full.
   */
  lemma ParenthesisedNamesItem(ts: string, loc: string, name: string)
    requires IsStamp(ts) && loc == "Hanoi (Campus 2)" && name == "Dot 3 (05/2025)"
    ensures HtmlItem(LogLine(ts, SuccessMessage(loc, "7", BatchInfo(Some(name), Some("503")), 2)))
      == Some("<li><strong>" + loc + "</strong> (ID: " + "7" + (") for " + name + " (Code: " + "503") + "): "
              + "2" + " session(s):" + " available sessions</li>")
  {
    ExampleItemisable(loc, name);
    SuccessLineItem(ts, loc, "7", Some(name), Some("503"), 2);
    TwoRendered();
    assert IdTail(Some(name), Some("503")) == ") for " + name + " (Code: " + "503";
  }

  /**
   * A line `_log` writes still holds the space inside its timestamp after
   * `strip()`, so its summary entry exists.
   */
  lemma StampedLineSpaced(ts: string, m: string)
    requires IsStamp(ts)
    ensures Contains(Strip(LogLine(ts, m)), " ")
  {
    var line := LogLine(ts, m);
    StampFacts(ts);
    assert '0' <= ts[18] <= '9';
    assert line[..19] == ts;
    assert line[0] == ts[0] && line[10] == ' ' && line[18] == ts[18];
    DigitNotSpace(line[0]);
    DigitNotSpace(line[18]);
    var l := LStrip(line);
    assert |l| == |line|;
    assert l == line;
    var r := RStrip(l);
    assert |r| > 18;
    assert r[10..11] == " ";
    OccursContains(r, " ", 10);
  }

  lemma DigitNotSpace(c: char)
    requires '0' <= c <= '9'
    ensures !IsSpace(c)
  {
  }
}
