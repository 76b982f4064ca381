/** The client's log panel (src-client/loggerService.js and the copy in
    src/main.js): a bounded list of time-stamped lines that drops its oldest
    line when it grows past its limit. The clock reading is a parameter; the
    HTML rendering of the panel is not part of this model. */
module Logger {
  import opened Text

  const MAX_LOG_LINES: nat := 509

  datatype LogEntry = LogEntry(message: string, isError: bool)

  /** A wall-clock time of day. */
  datatype Clock = Clock(hour: nat, minute: nat, second: nat)

  /** A two-digit field of `toLocaleTimeString('en-GB', ...)`. */
  function TwoDigits(n: nat): (s: string)
    requires n < 100
    ensures |s| == 2 && AllDigits(s) && DigitsValue(s) == n
  {
    var s := [('0' as int + n / 10) as char, ('0' as int + n % 10) as char];
    assert DigitValue(s[0]) == n / 10 && DigitValue(s[1]) == n % 10;
    assert s[..1] == [s[0]] && s[..1][..0] == [];
    assert DigitsValue(s[..1]) == n / 10;
    s
  }

  predicate ValidClock(c: Clock) { c.hour < 24 && c.minute < 60 && c.second < 60 }

  /** `HH:MM:SS`. */
  function TimeString(c: Clock): (s: string)
    requires ValidClock(c)
    ensures |s| == 8 && s[2] == ':' && s[5] == ':'
  {
    TwoDigits(c.hour) + ":" + TwoDigits(c.minute) + ":" + TwoDigits(c.second)
  }

  /** The text of a log line: `[<time>] <message>`. */
  function Stamp(c: Clock, message: string): (s: string)
    requires ValidClock(c)
  {
    "[" + TimeString(c) + "] " + message
  }

  /** The stamp is an 11-character prefix in front of the message. */
  lemma StampShape(c: Clock, message: string)
    requires ValidClock(c)
    ensures var s := Stamp(c, message);
      |s| == |message| + 11 && s[0] == '[' && s[9..11] == "] " && s[11..] == message
      && s[1..9] == TimeString(c)
  {
  }

  /** The log after pushing `e` and shifting once if it grew past `limit`. */
  function Appended(log: seq<LogEntry>, e: LogEntry, limit: nat): seq<LogEntry>
  {
    var pushed := log + [e];
    if |pushed| > limit then pushed[1..] else pushed
  }

  /** The log never grows past its limit. */
  lemma AppendedBound(log: seq<LogEntry>, e: LogEntry, limit: nat)
    requires |log| <= limit
    ensures |Appended(log, e, limit)| <= limit
  {
  }

  /** FIFO: the new entry is last, and the result is the old log with the
      new entry after it, less the oldest entry exactly when the old log was
      full. */
  lemma AppendedFifo(log: seq<LogEntry>, e: LogEntry, limit: nat)
    requires 0 < limit && |log| <= limit
    ensures var r := Appended(log, e, limit);
      |r| > 0 && r[|r| - 1] == e
      && (|log| < limit ==> r == log + [e])
      && (|log| == limit ==> r == log[1..] + [e])
  {
    if |log| == limit {
      assert (log + [e])[1..] == log[1..] + [e];
    }
  }

  /** The module-level `logMessages` list. */
  class Log {
    const limit: nat
    var entries: seq<LogEntry>

    ghost predicate Valid() reads this { |entries| <= limit }

    constructor (limit: nat)
      ensures this.limit == limit && entries == [] && Valid()
    {
      this.limit := limit;
      entries := [];
    }

    /** `appendLog(message, isError)` at clock reading `now`. */
    method AppendLog(message: string, isError: bool, now: Clock)
      requires ValidClock(now)
      requires Valid()
      modifies this
      ensures Valid()
      ensures entries == Appended(old(entries), LogEntry(Stamp(now, message), isError), limit)
    {
      entries := entries + [LogEntry(Stamp(now, message), isError)];
      if |entries| > limit {
        entries := entries[1..];
      }
    }

    /** `updateStatus(message)`: one more entry that is not an error. */
    method UpdateStatus(message: string, now: Clock)
      requires ValidClock(now)
      requires Valid()
      modifies this
      ensures Valid()
      ensures entries == Appended(old(entries), LogEntry(Stamp(now, message), false), limit)
    {
      AppendLog(message, false, now);
    }
  }
}
