/** The timestamp rule of the checker's result log. */
module Logging {
  import opened PyStr

  /** The shape `strftime('%Y-%m-%d %H:%M:%S')` produces. */
  predicate IsStamp(ts: string) {
    |ts| == 19 &&
    forall i :: 0 <= i < 19 ==>
      if i == 10 then ts[i] == ' '
      else if i == 4 || i == 7 then ts[i] == '-'
      else if i == 13 || i == 16 then ts[i] == ':'
      else '0' <= ts[i] <= '9'
  }

  /** The line `_log` writes: the message, prefixed by the timestamp and a space unless it already starts with it. */
  function LogLine(stamp: string, message: string): (r: string)
    ensures StartsWith(r, stamp)
  {
    if StartsWith(message, stamp) then message
    else
      assert (stamp + " " + message)[..|stamp|] == stamp;
      stamp + " " + message
  }

  /** The line starts with the stamp, the message is still there after the prefix, and logging a logged line changes nothing. */
  lemma LogLineKeepsMessage(stamp: string, message: string)
    ensures StartsWith(LogLine(stamp, message), stamp)
    ensures StartsWith(message, stamp) ==> LogLine(stamp, message) == message
    ensures var line := LogLine(stamp, message);
      line == message || line == stamp + " " + message
    ensures !StartsWith(message, stamp) ==> LogLine(stamp, message)[|stamp| + 1..] == message
    ensures LogLine(stamp, LogLine(stamp, message)) == LogLine(stamp, message)
  {
    if !StartsWith(message, stamp) {
      assert (stamp + " " + message)[..|stamp|] == stamp;
      assert (stamp + " " + message)[|stamp| + 1..] == message;
    }
  }

  /** The lines `_log` writes for the messages, one call per message. */
  function LogLines(stamp: string, messages: seq<string>): seq<string> {
    seq(|messages|, j requires 0 <= j < |messages| => LogLine(stamp, messages[j]))
  }
}
