/**
 * The shared activity log: a list of recent entries that holds at most 101
 * of them, evicting the oldest before appending when it already holds more
 * than 100.
 */
module ActivityLogs {

  datatype Severity = Info | Warning | Success | Error

  /** One log line: clock time as text, message, severity and brand. */
  datatype LogEntry = LogEntry(time: string, msg: string, kind: Severity, brand: string)

  /** `add_log` evicts once the log holds more than this many entries. */
  const EvictAbove: nat := 100

  /** The most entries the log ever holds. */
  const Capacity: nat := EvictAbove + 1

  /** One append: the oldest entry goes first when the log is over `EvictAbove`. */
  function LogAppend(logs: seq<LogEntry>, e: LogEntry): (r: seq<LogEntry>)
    ensures |logs| <= Capacity ==> |r| <= Capacity
    ensures |r| > 0 && r[|r| - 1] == e
  {
    var kept := if |logs| > EvictAbove then logs[1..] else logs;
    kept + [e]
  }

  /** Before the new entry come the old ones, less the oldest when the log was over `EvictAbove`. */
  lemma LogAppendKeeps(logs: seq<LogEntry>, e: LogEntry)
    ensures var r := LogAppend(logs, e);
      r[..|r| - 1] == if |logs| > EvictAbove then logs[1..] else logs
  {
    var kept := if |logs| > EvictAbove then logs[1..] else logs;
    assert (kept + [e])[..|kept|] == kept;
  }

  /** A series of appends, applied in order. */
  function LogAppendAll(logs: seq<LogEntry>, es: seq<LogEntry>): (r: seq<LogEntry>)
    decreases |es|
  {
    if es == [] then logs
    else LogAppend(LogAppendAll(logs, es[..|es| - 1]), es[|es| - 1])
  }

  /** The last `n` elements of `s` (all of them when it is shorter). */
  function Newest(s: seq<LogEntry>, n: nat): (r: seq<LogEntry>)
    ensures |r| == if |s| < n then |s| else n
  {
    if |s| <= n then s else s[|s| - n..]
  }

  /** Appending to the newest entries gives the newest entries of the longer history. */
  lemma NewestStep(s: seq<LogEntry>, e: LogEntry)
    ensures LogAppend(Newest(s, Capacity), e) == Newest(s + [e], Capacity)
  {
    if |s| >= Capacity {
      assert Newest(s, Capacity)[1..] + [e] == (s + [e])[|s| + 1 - Capacity..];
    }
  }

  /**
   * Ring-buffer behaviour: starting from a log within capacity, any series
   * of appends leaves exactly the newest `Capacity` entries, oldest first.
   */
  lemma {:induction false} LogKeepsNewest(logs: seq<LogEntry>, es: seq<LogEntry>)
    requires |logs| <= Capacity
    ensures LogAppendAll(logs, es) == Newest(logs + es, Capacity)
    decreases |es|
  {
    if es == [] {
      assert logs + es == logs;
    } else {
      var init := es[..|es| - 1];
      var e := es[|es| - 1];
      LogKeepsNewest(logs, init);
      NewestStep(logs + init, e);
      assert logs + es == (logs + init) + [e];
    }
  }

  /** The log never exceeds its capacity. */
  lemma LogBounded(logs: seq<LogEntry>, es: seq<LogEntry>)
    ensures |logs| <= Capacity ==> |LogAppendAll(logs, es)| <= Capacity
  {
    if |logs| <= Capacity {
      LogKeepsNewest(logs, es);
    }
  }

  lemma LogAppendAllSnoc(logs: seq<LogEntry>, es: seq<LogEntry>, e: LogEntry)
    ensures LogAppendAll(logs, es + [e]) == LogAppend(LogAppendAll(logs, es), e)
  {
    assert (es + [e])[..|es|] == es;
  }

  /** `recent_logs` together with `add_log`. */
  class ActivityLog {
    var entries: seq<LogEntry>

    ghost predicate Valid()
      reads this
    {
      |entries| <= Capacity
    }

    constructor ()
      ensures Valid() && entries == []
    {
      entries := [];
    }

    /** `add_log(msg, type, brand)` with the clock reading passed as `time`. */
    method Add(time: string, msg: string, kind: Severity, brand: string)
      modifies this
      ensures entries == LogAppend(old(entries), LogEntry(time, msg, kind, brand))
      ensures old(Valid()) ==> Valid()
    {
      if |entries| > EvictAbove {
        entries := entries[1..];
      }
      entries := entries + [LogEntry(time, msg, kind, brand)];
    }
  }
}
