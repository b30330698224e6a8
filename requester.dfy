/** The sliding-window request limiter.  It keeps the send times of recent
    requests, newest first; before a request it drops expired entries and,
    when the window is still full, works out how long to wait.  Time is
    given explicitly: `t` is the clock reading taken before eviction and
    `stamp` the reading recorded after the wait. */
module RateLimit {
  import opened Numbers

  /** What a call waits before sending: nothing, or a sleep whose length in
      milliseconds is NaN when the record was empty. */
  datatype Wait = NoWait | Sleep(ms: Num)

  /** The eviction loop as written: it tests the newest entry (the front) but
      removes from the back, so it removes everything or nothing. */
  function Evict(record: seq<int>, window: int, t: int): seq<int>
  {
    if |record| > 0 && t - record[0] >= window then [] else record
  }

  /** `Array.prototype.pop`: drops the last entry, and does nothing on an
      empty array. */
  function DropLast(record: seq<int>): seq<int>
  {
    if |record| == 0 then [] else record[..|record| - 1]
  }

  /** The record left before the new stamp is added, and the wait. */
  function Throttle(record: seq<int>, perWindow: int, window: int, t: int): (seq<int>, Wait)
  {
    if perWindow == -1 || |record| < perWindow then (record, NoWait)
    else
      var kept := Evict(record, window, t);
      if |kept| >= perWindow then
        (DropLast(kept), Sleep(if |kept| == 0 then NaN else Int(kept[0] + window - t)))
      else (kept, NoWait)
  }

  /** The record after a whole call: the new stamp goes in front. */
  function Admit(record: seq<int>, perWindow: int, window: int, t: int, stamp: int): seq<int>
  {
    [stamp] + Throttle(record, perWindow, window, t).0
  }

  /** One call's clock readings. */
  datatype Call = Call(t: int, stamp: int)

  /** The record after a series of calls with fixed settings. */
  function Run(record: seq<int>, perWindow: int, window: int, calls: seq<Call>): seq<int>
    decreases |calls|
  {
    if |calls| == 0 then record
    else Run(Admit(record, perWindow, window, calls[0].t, calls[0].stamp), perWindow, window, calls[1..])
  }

  /** Newest first: no entry is later than one before it. */
  predicate NewestFirst(record: seq<int>)
  {
    forall i, j :: 0 <= i < j < |record| ==> record[j] <= record[i]
  }

  class Requester {
    var requests: seq<int>
    var requestsPerWindow: int
    var window: int

    /** The defaults are twelve requests per sixty seconds; -1 for
        `requestsPerWindow` means no limit. */
    constructor(requestsPerWindow: int := 12, window: int := 60000)
      ensures this.requests == []
      ensures this.requestsPerWindow == requestsPerWindow && this.window == window
    {
      this.requests := [];
      this.requestsPerWindow := requestsPerWindow;
      this.window := window;
    }

    method SetRequestsPerWindow(requestsPerWindow: int)
      modifies this`requestsPerWindow
      ensures this.requestsPerWindow == requestsPerWindow
    {
      this.requestsPerWindow := requestsPerWindow;
    }

    method SetWindow(window: int)
      modifies this`window
      ensures this.window == window
    {
      this.window := window;
    }

    /** The bookkeeping of `request`: evict, maybe wait, then record. */
    method Request(t: int, stamp: int) returns (wait: Wait)
      modifies this`requests
      ensures requests == Admit(old(requests), requestsPerWindow, window, t, stamp)
      ensures wait == Throttle(old(requests), requestsPerWindow, window, t).1
    {
      wait := NoWait;
      if requestsPerWindow != -1 && |requests| >= requestsPerWindow {
        while |requests| > 0
          invariant requests == old(requests)[..|requests|]
          invariant |requests| < |old(requests)| ==> t - old(requests)[0] >= window
          decreases |requests|
        {
          if t - requests[0] >= window {
            requests := requests[..|requests| - 1];
          } else {
            break;
          }
        }
        assert requests == Evict(old(requests), window, t);
        if |requests| >= requestsPerWindow {
          wait := Sleep(if |requests| == 0 then NaN else Int(requests[0] + window - t));
          requests := DropLast(requests);
        }
      }
      requests := [stamp] + requests;
    }
  }

  // ---------------------------------------------------------------------
  // Properties

  /** Unlimited (-1): nothing is removed and there is no wait. */
  lemma UnlimitedOnlyPrepends(record: seq<int>, window: int, t: int, stamp: int)
    ensures Throttle(record, -1, window, t) == (record, NoWait)
    ensures Admit(record, -1, window, t, stamp) == [stamp] + record
  {
  }

  /** Eviction and waiting happen only when the record is full on entry. */
  lemma ThrottleOnlyWhenFull(record: seq<int>, perWindow: int, window: int, t: int)
    ensures Throttle(record, perWindow, window, t) != (record, NoWait)
      ==> perWindow != -1 && |record| >= perWindow
  {
  }

  /** With entries newest first, eviction removes everything (when even the
      newest entry is a full window old, and then so is every entry) or
      nothing (and then the newest entry is within the window). */
  lemma EvictAllOrNothing(record: seq<int>, window: int, t: int)
    requires NewestFirst(record)
    ensures Evict(record, window, t) == [] || Evict(record, window, t) == record
    ensures |record| > 0 && Evict(record, window, t) == [] ==>
      forall i :: 0 <= i < |record| ==> t - record[i] >= window
    ensures |record| > 0 && Evict(record, window, t) == record ==> t - record[0] < window
  {
    if |record| > 0 && Evict(record, window, t) == [] {
      forall i | 0 <= i < |record| ensures t - record[i] >= window {
        if i > 0 {
          assert record[i] <= record[0];
        }
      }
    }
  }

  /** With a positive limit, when the window is still full after eviction
      the wait is `requests[0] + window - t`, strictly positive, and
      exactly one entry, the oldest, is removed. */
  lemma FullWindowWaits(record: seq<int>, perWindow: int, window: int, t: int)
    requires perWindow >= 1 && |record| >= perWindow
    requires |Evict(record, window, t)| >= perWindow
    ensures Throttle(record, perWindow, window, t).0 == record[..|record| - 1]
    ensures Throttle(record, perWindow, window, t).1 == Sleep(Int(record[0] + window - t))
    ensures record[0] + window - t > 0
  {
    assert Evict(record, window, t) == record;
  }

  /** What survives a call is a prefix of what was there: entries are only
      ever removed from the back. */
  lemma ThrottleKeepsPrefix(record: seq<int>, perWindow: int, window: int, t: int)
    ensures var kept := Throttle(record, perWindow, window, t).0;
      |kept| <= |record| && kept == record[..|kept|]
  {
  }

  /** With a fixed limit of at least one, a record within the limit stays
      within it after a call. */
  lemma AdmitBounded(record: seq<int>, perWindow: int, window: int, t: int, stamp: int)
    requires perWindow >= 1 && |record| <= perWindow
    ensures |Admit(record, perWindow, window, t, stamp)| <= perWindow
  {
    if |record| >= perWindow {
      var kept := Evict(record, window, t);
      if |kept| >= perWindow {
        assert |DropLast(kept)| == |kept| - 1;
      }
    }
  }

  /** ...and so after any series of calls from an empty record. */
  lemma {:induction false} RunBounded(record: seq<int>, perWindow: int, window: int, calls: seq<Call>)
    requires perWindow >= 1 && |record| <= perWindow
    ensures |Run(record, perWindow, window, calls)| <= perWindow
    decreases |calls|
  {
    if |calls| > 0 {
      AdmitBounded(record, perWindow, window, calls[0].t, calls[0].stamp);
      RunBounded(Admit(record, perWindow, window, calls[0].t, calls[0].stamp), perWindow, window, calls[1..]);
    }
  }

  /** Every call puts its stamp at index 0, so a record kept newest first
      stays newest first when the stamps do not go backwards. */
  lemma AdmitNewestFirst(record: seq<int>, perWindow: int, window: int, t: int, stamp: int)
    requires NewestFirst(record)
    requires |record| > 0 ==> record[0] <= stamp
    ensures var r := Admit(record, perWindow, window, t, stamp); r[0] == stamp && NewestFirst(r)
  {
    var kept := Throttle(record, perWindow, window, t).0;
    ThrottleKeepsPrefix(record, perWindow, window, t);
    var r := [stamp] + kept;
    forall i, j | 0 <= i < j < |r| ensures r[j] <= r[i] {
      if i == 0 {
        assert r[j] == record[j - 1] && record[j - 1] <= record[0];
      } else {
        assert r[i] == record[i - 1] && r[j] == record[j - 1];
      }
    }
  }

  /** Stamps that never decrease. */
  predicate NonDecreasing(calls: seq<Call>)
  {
    forall i, j :: 0 <= i < j < |calls| ==> calls[i].stamp <= calls[j].stamp
  }

  /** A series of calls whose stamps never decrease keeps the record newest
      first, with the latest stamp in front. */
  lemma {:induction false} RunNewestFirst(record: seq<int>, perWindow: int, window: int, calls: seq<Call>)
    requires NewestFirst(record) && NonDecreasing(calls)
    requires |record| > 0 && |calls| > 0 ==> record[0] <= calls[0].stamp
    ensures var r := Run(record, perWindow, window, calls);
      NewestFirst(r) && (|calls| > 0 ==> |r| > 0 && r[0] == calls[|calls| - 1].stamp)
    decreases |calls|
  {
    if |calls| > 0 {
      AdmitNewestFirst(record, perWindow, window, calls[0].t, calls[0].stamp);
      var next := Admit(record, perWindow, window, calls[0].t, calls[0].stamp);
      RunNewestFirst(next, perWindow, window, calls[1..]);
      if |calls| > 1 {
        assert calls[1..][|calls| - 2] == calls[|calls| - 1];
      }
    }
  }

  // ---------------------------------------------------------------------
  // The sliding window

  /** Calls made one after the other on a fresh limiter: each call's first
      reading comes after the previous call's stamp, its stamp after its
      first reading, and after its sleep when it sleeps. */
  predicate Sequential(perWindow: int, window: int, calls: seq<Call>)
  {
    forall k :: 0 <= k < |calls| ==>
      calls[k].t <= calls[k].stamp &&
      (k > 0 ==> calls[k - 1].stamp <= calls[k].t) &&
      Slept(Throttle(Run([], perWindow, window, calls[..k]), perWindow, window, calls[k].t).1, calls[k].t, calls[k].stamp)
  }

  predicate Slept(wait: Wait, t: int, stamp: int)
  {
    wait.Sleep? && wait.ms.Int? ==> t + wait.ms.v <= stamp
  }

  lemma {:induction false} RunSnoc(record: seq<int>, perWindow: int, window: int, calls: seq<Call>, c: Call)
    ensures Run(record, perWindow, window, calls + [c]) ==
      Admit(Run(record, perWindow, window, calls), perWindow, window, c.t, c.stamp)
    decreases |calls|
  {
    if |calls| > 0 {
      assert (calls + [c])[1..] == calls[1..] + [c];
      RunSnoc(Admit(record, perWindow, window, calls[0].t, calls[0].stamp), perWindow, window, calls[1..], c);
    }
  }

  /** The record before call k + 1 is call k's `Admit` of the record before
      call k. */
  lemma RunStep(perWindow: int, window: int, calls: seq<Call>, k: nat)
    requires k < |calls|
    ensures Run([], perWindow, window, calls[..k + 1]) ==
      Admit(Run([], perWindow, window, calls[..k]), perWindow, window, calls[k].t, calls[k].stamp)
  {
    assert calls[..k + 1] == calls[..k] + [calls[k]];
    RunSnoc([], perWindow, window, calls[..k], calls[k]);
  }

  /** Stamps of sequential calls never decrease. */
  lemma {:induction false} SequentialRises(perWindow: int, window: int, calls: seq<Call>, i: nat, j: nat)
    requires Sequential(perWindow, window, calls) && i <= j < |calls|
    ensures calls[i].stamp <= calls[j].stamp
    decreases j
  {
    if i < j {
      SequentialRises(perWindow, window, calls, i, j - 1);
    }
  }

  /** A call that finds the record full is stamped at least a window after
      the newest entry: either that entry had expired when the call began,
      or the call slept until it expires. */
  lemma FullCallWaitsWindow(record: seq<int>, perWindow: int, window: int, t: int, stamp: int)
    requires perWindow >= 1 && NewestFirst(record) && |record| >= perWindow
    requires t <= stamp && Slept(Throttle(record, perWindow, window, t).1, t, stamp)
    ensures record[0] + window <= stamp
  {
    EvictAllOrNothing(record, window, t);
    if Evict(record, window, t) == record {
      FullWindowWaits(record, perWindow, window, t);
    }
  }

  /** While no call finds the record full, every call adds one entry. */
  lemma {:induction false} RecordGrows(perWindow: int, window: int, calls: seq<Call>, i: nat, m: nat)
    requires i < m <= |calls|
    requires forall l :: i < l < m ==> |Run([], perWindow, window, calls[..l])| < perWindow
    ensures |Run([], perWindow, window, calls[..m])| >= m - i
    decreases m
  {
    RunStep(perWindow, window, calls, m - 1);
    if m - 1 > i {
      RecordGrows(perWindow, window, calls, i, m - 1);
    }
  }

  /** Some call among i + 1..j found the record full. */
  lemma FullCallBetween(perWindow: int, window: int, calls: seq<Call>, i: nat, j: nat) returns (l: nat)
    requires perWindow >= 1 && i < j < |calls| && j - i >= perWindow
    ensures i < l <= j && |Run([], perWindow, window, calls[..l])| >= perWindow
  {
    if forall l :: i < l <= j ==> |Run([], perWindow, window, calls[..l])| < perWindow {
      RecordGrows(perWindow, window, calls, i, j + 1);
      RunBounded([], perWindow, window, calls[..j + 1]);
      assert false;
    }
    l :| i < l <= j && |Run([], perWindow, window, calls[..l])| >= perWindow;
  }

  /** The record before call l > 0 is newest first with call l - 1's
      stamp in front. */
  lemma RecordBefore(perWindow: int, window: int, calls: seq<Call>, l: nat)
    requires Sequential(perWindow, window, calls) && 0 < l <= |calls|
    ensures var record := Run([], perWindow, window, calls[..l]);
      NewestFirst(record) && |record| > 0 && record[0] == calls[l - 1].stamp
  {
    var prefix := calls[..l];
    forall a, b | 0 <= a < b < |prefix| ensures prefix[a].stamp <= prefix[b].stamp {
      SequentialRises(perWindow, window, calls, a, b);
    }
    RunNewestFirst([], perWindow, window, prefix);
  }

  /** With a limit of at least one, any `perWindow` + 1 sequential calls
      span at least a window: calls i and j with j - i >= perWindow are
      stamped at least `window` apart, so no window-long interval holds
      more than `perWindow` stamps. */
  lemma SlidingWindow(perWindow: int, window: int, calls: seq<Call>, i: nat, j: nat)
    requires perWindow >= 1 && Sequential(perWindow, window, calls)
    requires i < j < |calls| && j - i >= perWindow
    ensures calls[i].stamp + window <= calls[j].stamp
  {
    var l := FullCallBetween(perWindow, window, calls, i, j);
    RecordBefore(perWindow, window, calls, l);
    FullCallWaitsWindow(Run([], perWindow, window, calls[..l]), perWindow, window, calls[l].t, calls[l].stamp);
    SequentialRises(perWindow, window, calls, i, l - 1);
    SequentialRises(perWindow, window, calls, l, j);
  }
}
