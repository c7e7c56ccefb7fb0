/**
 * The per-tenant sliding-window rate limiter: a tenant's send times, oldest
 * first, are purged of every leading entry older than `now - window` before
 * each admission check, and a send is admitted while fewer than `limit`
 * entries remain.
 */
module RateLimit {

  /** The send-time list one worker owns; the source passes it by reference. */
  class SendTimes {
    var times: seq<nat>

    constructor ()
      ensures times == []
    {
      times := [];
    }
  }

  predicate Sorted(s: seq<nat>) {
    forall i, j :: 0 <= i < j < |s| ==> s[i] <= s[j]
  }

  /** Drops leading entries strictly older than `cutoff`. */
  function Purge(times: seq<nat>, cutoff: int): (r: seq<nat>)
    ensures |r| <= |times|
    ensures r == [] || r[0] >= cutoff
    decreases |times|
  {
    if |times| > 0 && times[0] < cutoff then Purge(times[1..], cutoff) else times
  }

  /** What survives a purge is a suffix of the list. */
  lemma {:induction false} PurgeIsSuffix(times: seq<nat>, cutoff: int)
    ensures Purge(times, cutoff) == times[|times| - |Purge(times, cutoff)|..]
    decreases |times|
  {
    if |times| > 0 && times[0] < cutoff {
      PurgeIsSuffix(times[1..], cutoff);
      assert times[1..][|times| - 1 - |Purge(times[1..], cutoff)|..] == times[|times| - |Purge(times, cutoff)|..];
    }
  }

  /** Only expired entries are dropped. */
  lemma {:induction false} PurgeDropsExpired(times: seq<nat>, cutoff: int)
    ensures forall i :: 0 <= i < |times| - |Purge(times, cutoff)| ==> times[i] < cutoff
    decreases |times|
  {
    if |times| > 0 && times[0] < cutoff {
      PurgeDropsExpired(times[1..], cutoff);
      assert forall i :: 1 <= i < |times| ==> times[i] == times[1..][i - 1];
    }
  }

  /** The admission decision: fewer than `limit` sends remain in the window. */
  predicate Admits(times: seq<nat>, limit: nat, window: nat, now: nat) {
    |Purge(times, now - window)| < limit
  }

  /** Purging keeps the longest suffix of `times` that starts inside the window. */
  lemma {:induction false} PurgeIsLongestFreshSuffix(times: seq<nat>, cutoff: int, k: nat)
    requires k <= |times|
    requires forall i :: 0 <= i < k ==> times[i] < cutoff
    requires k == |times| || times[k] >= cutoff
    ensures Purge(times, cutoff) == times[k..]
    decreases k
  {
    if k > 0 {
      PurgeIsLongestFreshSuffix(times[1..], cutoff, k - 1);
      assert times[1..][k - 1..] == times[k..];
    }
  }

  /**
   * A second rate check at the same `now` purges nothing more and gives the
   * same answer.
   */
  lemma RateCheckIdempotent(times: seq<nat>, limit: nat, window: nat, now: nat)
    ensures Purge(Purge(times, now - window), now - window) == Purge(times, now - window)
    ensures Admits(Purge(times, now - window), limit, window, now) == Admits(times, limit, window, now)
  {
  }

  lemma SuffixSorted(s: seq<nat>, d: nat)
    requires d <= |s| && Sorted(s)
    ensures Sorted(s[d..])
  {
    forall i, j | 0 <= i < j < |s| - d ensures s[d..][i] <= s[d..][j] {
      assert s[d..][i] == s[d + i] && s[d..][j] == s[d + j];
    }
  }

  /** No recorded send lies after `now`. */
  predicate NoLaterThan(s: seq<nat>, now: nat) {
    forall i :: 0 <= i < |s| ==> s[i] <= now
  }

  lemma SuffixBounded(s: seq<nat>, d: nat, now: nat)
    requires d <= |s| && NoLaterThan(s, now)
    ensures NoLaterThan(s[d..], now)
  {
    forall i | 0 <= i < |s| - d ensures s[d..][i] <= now {
      assert s[d..][i] == s[d + i];
    }
  }

  /** Appending a time no earlier than any recorded one keeps the list sorted. */
  lemma SortedSnoc(s: seq<nat>, now: nat)
    requires Sorted(s) && NoLaterThan(s, now)
    ensures Sorted(s + [now]) && NoLaterThan(s + [now], now)
  {
    forall i, j | 0 <= i < j < |s| + 1 ensures (s + [now])[i] <= (s + [now])[j] {
      if j == |s| {
        assert (s + [now])[i] == s[i];
      }
    }
  }

  /** A purged sorted list stays sorted. */
  lemma PurgeSorted(times: seq<nat>, cutoff: int)
    requires Sorted(times)
    ensures Sorted(Purge(times, cutoff))
  {
    var r := Purge(times, cutoff);
    PurgeIsSuffix(times, cutoff);
    SuffixSorted(times, |times| - |r|);
  }

  /** The tracker after one call: purged, and with `now` appended when a message went out. */
  function Record(times: seq<nat>, cutoff: int, now: nat, sent: bool): seq<nat>
  {
    var kept := Purge(times, cutoff);
    if sent then kept + [now] else kept
  }

  /** With a clock that never runs backwards the tracker stays oldest-first. */
  lemma RecordKeepsSorted(times: seq<nat>, cutoff: int, now: nat, sent: bool)
    requires Sorted(times) && NoLaterThan(times, now)
    ensures Sorted(Record(times, cutoff, now, sent)) && NoLaterThan(Record(times, cutoff, now, sent), now)
  {
    var kept := Purge(times, cutoff);
    PurgeIsSuffix(times, cutoff);
    SuffixSorted(times, |times| - |kept|);
    SuffixBounded(times, |times| - |kept|, now);
    if sent {
      SortedSnoc(kept, now);
    }
  }

  /** On a sorted list every retained send lies inside the window. */
  lemma PurgeSortedAllFresh(times: seq<nat>, cutoff: int)
    requires Sorted(times)
    ensures forall i :: 0 <= i < |Purge(times, cutoff)| ==> Purge(times, cutoff)[i] >= cutoff
  {
    var r := Purge(times, cutoff);
    var d := |times| - |r|;
    PurgeIsSuffix(times, cutoff);
    forall i | 0 <= i < |r| ensures r[i] >= cutoff {
      assert r[i] == times[d + i] && r[0] == times[d];
    }
  }

  /** The number of entries at or after `cutoff`, counted without purging. */
  function CountFresh(times: seq<nat>, cutoff: int): (n: nat)
    ensures n <= |times|
    decreases |times|
  {
    if times == [] then 0
    else (if times[0] >= cutoff then 1 else 0) + CountFresh(times[1..], cutoff)
  }

  lemma {:induction false} CountFreshAllFresh(times: seq<nat>, cutoff: int)
    requires forall i :: 0 <= i < |times| ==> times[i] >= cutoff
    ensures CountFresh(times, cutoff) == |times|
    decreases |times|
  {
    if times != [] {
      CountFreshAllFresh(times[1..], cutoff);
    }
  }

  /**
   * On a sorted list the purge keeps exactly the sends inside the window, so
   * admission is "fewer than `limit` sends at or after `now - window`".
   */
  lemma {:induction false} PurgeCountsWindow(times: seq<nat>, cutoff: int)
    requires Sorted(times)
    ensures |Purge(times, cutoff)| == CountFresh(times, cutoff)
    decreases |times|
  {
    if times != [] {
      if times[0] < cutoff {
        assert Sorted(times[1..]);
        PurgeCountsWindow(times[1..], cutoff);
      } else {
        PurgeSortedAllFresh(times, cutoff);
        CountFreshAllFresh(times, cutoff);
      }
    }
  }

  lemma AdmitsIffWindowCount(times: seq<nat>, limit: nat, window: nat, now: nat)
    requires Sorted(times)
    ensures Admits(times, limit, window, now) <==> CountFresh(times, now - window) < limit
  {
    var cutoff := now - window;
    PurgeCountsWindow(times, cutoff);
    assert Admits(times, limit, window, now) == (|Purge(times, cutoff)| < limit);
  }

  /**
   * `check_rate_limit`: pops expired heads off the list in place, then
   * answers whether another send is admitted.
   */
  method CheckRateLimit(sentTimes: SendTimes, limit: nat, window: nat, now: nat)
    returns (admitted: bool)
    modifies sentTimes
    ensures sentTimes.times == Purge(old(sentTimes.times), now - window)
    ensures admitted == Admits(old(sentTimes.times), limit, window, now)
    ensures admitted <==> |sentTimes.times| < limit
  {
    var cutoff := now - window;
    while |sentTimes.times| > 0 && sentTimes.times[0] < cutoff
      invariant Purge(sentTimes.times, cutoff) == Purge(old(sentTimes.times), cutoff)
      decreases |sentTimes.times|
    {
      sentTimes.times := sentTimes.times[1..];
    }
    admitted := |sentTimes.times| < limit;
  }
}
