/** The in-memory sliding-window rate limiter of rate_limiter.py: a map from
    client key to the timestamps of its accepted requests. Time is an integer
    parameter `now` (the `time.time()` of the call); the lock is left out, so
    calls are sequential. */
module RateLimiting {
  import opened Common

  /** The timestamps of `ts` later than `cutoff`, in order. */
  function KeepAfter(ts: seq<int>, cutoff: int): (r: seq<int>)
    ensures |r| <= |ts|
    ensures forall k :: 0 <= k < |r| ==> r[k] > cutoff
    ensures forall k :: 0 <= k < |r| ==> r[k] in ts
    ensures forall k :: 0 <= k < |ts| && ts[k] > cutoff ==> ts[k] in r
  {
    if ts == [] then []
    else (if ts[0] > cutoff then [ts[0]] else []) + KeepAfter(ts[1..], cutoff)
  }

  /** Pruning is the filter "later than the cutoff": it keeps those timestamps
      in their order, each as often as it was recorded, and drops every
      other one. */
  lemma KeepAfterExact(ts: seq<int>, cutoff: int)
    ensures IsSubsequence(KeepAfter(ts, cutoff), ts)
    ensures forall t :: multiset(KeepAfter(ts, cutoff))[t] == if t > cutoff then multiset(ts)[t] else 0
  {
    var later := (t: int) => t > cutoff;
    KeepAfterIsFilter(ts, cutoff);
    FilterIsSubsequence(ts, later);
    forall t
      ensures multiset(KeepAfter(ts, cutoff))[t] == if t > cutoff then multiset(ts)[t] else 0
    {
      FilterCount(ts, later, t);
    }
  }

  lemma {:induction false} KeepAfterIsFilter(ts: seq<int>, cutoff: int)
    ensures KeepAfter(ts, cutoff) == Filter(ts, (t: int) => t > cutoff)
    decreases |ts|
  {
    if ts != [] {
      KeepAfterIsFilter(ts[1..], cutoff);
    }
  }

  /** The decision and the new list for one key: prune to the window, refuse
      when the pruned list is full, otherwise append `now`. */
  datatype Decision = Decision(allowed: bool, history: seq<int>)

  function Decide(ts: seq<int>, maxRequests: int, windowSeconds: int, now: int): (d: Decision)
    ensures d.allowed <==> |KeepAfter(ts, now - windowSeconds)| < maxRequests
    ensures !d.allowed ==> d.history == KeepAfter(ts, now - windowSeconds)
    ensures d.allowed ==> d.history == KeepAfter(ts, now - windowSeconds) + [now]
  {
    var pruned := KeepAfter(ts, now - windowSeconds);
    if |pruned| >= maxRequests then Decision(false, pruned) else Decision(true, pruned + [now])
  }

  /** After a decision every stored timestamp lies inside the window when the
      window is positive; a refusal adds nothing and the list is then full. */
  lemma DecideWindow(ts: seq<int>, maxRequests: int, windowSeconds: int, now: int)
    ensures var d := Decide(ts, maxRequests, windowSeconds, now);
      (windowSeconds > 0 ==> forall k :: 0 <= k < |d.history| ==> d.history[k] > now - windowSeconds) &&
      (!d.allowed ==> |d.history| >= maxRequests && |d.history| <= |ts|) &&
      (d.allowed ==> d.history[|d.history| - 1] == now && |d.history| <= maxRequests)
  {
  }

  /** A zero or negative window lets the appended request fall outside its own
      window: the stored `now` is not later than `now - windowSeconds`. */
  lemma NonPositiveWindowKeepsStale(ts: seq<int>, maxRequests: int, windowSeconds: int, now: int)
    requires windowSeconds <= 0 && Decide(ts, maxRequests, windowSeconds, now).allowed
    ensures var h := Decide(ts, maxRequests, windowSeconds, now).history;
      h[|h| - 1] == now && !(h[|h| - 1] > now - windowSeconds)
  {
  }

  /** One `is_allowed` call on a key: the time of the call and the window. */
  datatype Call = Call(now: int, windowSeconds: int)

  /** A key's list after a run of calls that all use the same limit. */
  function Replay(ts: seq<int>, maxRequests: int, calls: seq<Call>): seq<int>
    decreases |calls|
  {
    if calls == [] then ts
    else Replay(Decide(ts, maxRequests, calls[0].windowSeconds, calls[0].now).history, maxRequests, calls[1..])
  }

  /** With one limit for every call, a key's list never grows past that limit. */
  lemma {:induction false} ReplayBounded(ts: seq<int>, maxRequests: int, calls: seq<Call>)
    requires |ts| <= maxRequests
    ensures |Replay(ts, maxRequests, calls)| <= maxRequests
    decreases |calls|
  {
    if calls != [] {
      var d := Decide(ts, maxRequests, calls[0].windowSeconds, calls[0].now);
      ReplayBounded(d.history, maxRequests, calls[1..]);
    }
  }

  /** The earliest timestamp, `min(self.requests[key])`. */
  function Oldest(ts: seq<int>): (m: int)
    requires ts != []
    ensures m in ts
    ensures forall k :: 0 <= k < |ts| ==> m <= ts[k]
  {
    if |ts| == 1 then ts[0]
    else
      var rest := Oldest(ts[1..]);
      if ts[0] <= rest then ts[0] else rest
  }

  /** `get_retry_after`: 0 for no history, otherwise the seconds left until
      the oldest request leaves the window, never negative. */
  function RetryAfter(ts: seq<int>, windowSeconds: int, now: int): (r: int)
    ensures r >= 0
  {
    if ts == [] then 0
    else
      var left := windowSeconds - (now - Oldest(ts));
      if left > 0 then left else 0
  }

  /** The wait is zero exactly when there is no history or the oldest request
      is already a full window old; otherwise the oldest stays in the window
      for exactly that many more seconds. */
  lemma RetryAfterIff(ts: seq<int>, windowSeconds: int, now: int)
    ensures RetryAfter(ts, windowSeconds, now) == 0 <==> ts == [] || Oldest(ts) + windowSeconds <= now
    ensures ts != [] && RetryAfter(ts, windowSeconds, now) > 0 ==>
      now + RetryAfter(ts, windowSeconds, now) == Oldest(ts) + windowSeconds
  {
  }

  class RateLimiter {
    /** `self.requests`; a missing key reads as the empty list. */
    var requests: map<string, seq<int>>

    constructor ()
      ensures requests == map[]
    {
      requests := map[];
    }

    function History(key: string): seq<int>
      reads this
    {
      if key in requests then requests[key] else []
    }

    /** `is_allowed`: the pruned list is stored in any case; `now` is appended
        only when the request is accepted; no other key changes. */
    method IsAllowed(key: string, maxRequests: int, windowSeconds: int, now: int) returns (allowed: bool)
      modifies this
      ensures var d := Decide(old(History(key)), maxRequests, windowSeconds, now);
        allowed == d.allowed && requests == old(requests)[key := d.history]
      ensures forall other :: other != key ==> History(other) == old(History(other))
    {
      var cutoff := now - windowSeconds;
      var kept := KeepAfter(if key in requests then requests[key] else [], cutoff);
      requests := requests[key := kept];
      if |kept| >= maxRequests {
        return false;
      }
      requests := requests[key := kept + [now]];
      return true;
    }

    /** `get_retry_after`: reading the defaultdict inserts an empty list for
        an unknown key; no timestamp changes. */
    method GetRetryAfter(key: string, windowSeconds: int, now: int) returns (r: int)
      modifies this
      ensures r == RetryAfter(old(History(key)), windowSeconds, now)
      ensures requests == old(requests)[key := old(History(key))]
    {
      if key !in requests {
        requests := requests[key := []];
      }
      var ts := requests[key];
      if ts == [] {
        return 0;
      }
      var oldest := Oldest(ts);
      var retryAfter := windowSeconds - (now - oldest);
      r := if retryAfter > 0 then retryAfter else 0;
    }
  }
}
