/**
 The process-local sliding-window rate limit: admissions are kept per key, and those that have left the
 window are dropped on the next call for the key. Times are seconds.
 */
module RateLimit {
  import opened Common

  /** The times after a cutoff, in order. */
  function After(times: seq<real>, cutoff: real): (kept: seq<real>)
    ensures |kept| <= |times|
  {
    if times == [] then []
    else (if times[0] > cutoff then [times[0]] else []) + After(times[1..], cutoff)
  }

  function Bucket(buckets: map<string, seq<real>>, key: string): seq<real> {
    if key in buckets then buckets[key] else []
  }

  class MemoryBuckets {
    var buckets: map<string, seq<real>>

    constructor ()
      ensures buckets == map[]
    {
      buckets := map[];
    }

    /** Admits a call unless `limit` admissions of its key are still in the window. */
    method Allow(key: string, limit: int, window: real, now: real) returns (allowed: bool)
      modifies this
      ensures var kept := After(Bucket(old(buckets), key), now - window);
        && allowed == (|kept| < limit)
        && buckets == old(buckets)[key := if allowed then kept + [now] else kept]
    {
      if key !in buckets {
        buckets := buckets[key := []];
      }
      var cutoff := now - window;
      var kept := [];
      var bucket := buckets[key];
      for i := 0 to |bucket|
        invariant After(bucket, cutoff) == kept + After(bucket[i..], cutoff)
      {
        assert bucket[i..][1..] == bucket[i + 1..];
        if bucket[i] > cutoff {
          kept := kept + [bucket[i]];
        }
      }
      assert kept + [] == kept;
      buckets := buckets[key := kept];
      if |buckets[key]| >= limit {
        return false;
      }
      buckets := buckets[key := buckets[key] + [now]];
      return true;
    }
  }

  // ----- Runs of calls -----

  datatype Call = Call(key: string, now: real)

  /** The buckets after a run of calls under one limit and one window. */
  function Run(calls: seq<Call>, limit: int, window: real): map<string, seq<real>>
    decreases |calls|
  {
    if calls == [] then map[]
    else
      var before, call := Run(calls[..|calls| - 1], limit, window), calls[|calls| - 1];
      var kept := After(Bucket(before, call.key), call.now - window);
      before[call.key := if |kept| < limit then kept + [call.now] else kept]
  }

  predicate Allowed(calls: seq<Call>, call: Call, limit: int, window: real) {
    |After(Bucket(Run(calls, limit, window), call.key), call.now - window)| < limit
  }

  /** The times at which calls of a key were admitted. */
  function Admissions(calls: seq<Call>, key: string, limit: int, window: real): seq<real>
    decreases |calls|
  {
    if calls == [] then []
    else
      var before, call := calls[..|calls| - 1], calls[|calls| - 1];
      Admissions(before, key, limit, window)
      + (if call.key == key && Allowed(before, call, limit, window) then [call.now] else [])
  }

  predicate ClockRuns(calls: seq<Call>) {
    forall i, j :: 0 <= i < j < |calls| ==> calls[i].now <= calls[j].now
  }

  /** How many times lie in the half-open window that ends at `end`. */
  function InWindow(times: seq<real>, end: real, window: real): nat {
    if times == [] then 0
    else (if end - window < times[0] <= end then 1 else 0) + InWindow(times[1..], end, window)
  }

  lemma {:induction false} AfterAppend(a: seq<real>, b: seq<real>, cutoff: real)
    ensures After(a + b, cutoff) == After(a, cutoff) + After(b, cutoff)
  {
    if a == [] {
      assert a + b == b;
    } else {
      assert (a + b)[1..] == a[1..] + b;
      AfterAppend(a[1..], b, cutoff);
    }
  }

  lemma {:induction false} AfterAfter(times: seq<real>, cutoff: real, later: real)
    requires cutoff <= later
    ensures After(After(times, cutoff), later) == After(times, later)
  {
    if times != [] {
      AfterAfter(times[1..], cutoff, later);
      var rest := After(times[1..], cutoff);
      assert ([times[0]] + rest)[1..] == rest && [] + rest == rest;
    }
  }

  lemma {:induction false} InWindowAppend(a: seq<real>, b: seq<real>, end: real, window: real)
    ensures InWindow(a + b, end, window) == InWindow(a, end, window) + InWindow(b, end, window)
  {
    if a == [] {
      assert a + b == b;
    } else {
      assert (a + b)[1..] == a[1..] + b;
      InWindowAppend(a[1..], b, end, window);
    }
  }

  /** Times that are all past count in a later window only if they are still kept. */
  lemma {:induction false} WindowIsKept(times: seq<real>, now: real, end: real, window: real)
    requires forall i :: 0 <= i < |times| ==> times[i] <= now
    ensures InWindow(times, now, window) == |After(times, now - window)|
    ensures now <= end ==> InWindow(times, end, window) <= |After(times, now - window)|
  {
    if times != [] {
      assert forall i :: 0 <= i < |times[1..]| ==> times[1..][i] == times[i + 1];
      WindowIsKept(times[1..], now, end, window);
    }
  }

  lemma {:induction false} AdmissionsArePast(calls: seq<Call>, key: string, limit: int, window: real, now: real)
    requires ClockRuns(calls) && (calls == [] || calls[|calls| - 1].now <= now)
    ensures forall i :: 0 <= i < |Admissions(calls, key, limit, window)| ==> Admissions(calls, key, limit, window)[i] <= now
    decreases |calls|
  {
    hide Allowed;
    if calls != [] {
      AdmissionsArePast(calls[..|calls| - 1], key, limit, window, now);
    }
  }

  /** A key's bucket holds all its admissions since any later cutoff. */
  lemma {:induction false} BucketKeeps(calls: seq<Call>, key: string, limit: int, window: real, now: real)
    requires ClockRuns(calls) && (calls == [] || calls[|calls| - 1].now <= now)
    ensures After(Bucket(Run(calls, limit, window), key), now - window)
            == After(Admissions(calls, key, limit, window), now - window)
    decreases |calls|
  {
    hide After, Admissions, Run, Allowed;
    if calls == [] {
      NothingYet(key, limit, window);
    } else {
      var before, call := calls[..|calls| - 1], calls[|calls| - 1];
      BucketKeeps(before, key, limit, window, now);
      OneCall(calls, key, limit, window);
      var was, admitted := Bucket(Run(before, limit, window), key), Admissions(before, key, limit, window);
      AfterAfter(was, call.now - window, now - window);
      AfterAppend(After(was, call.now - window), [call.now], now - window);
      AfterAppend(admitted, [call.now], now - window);
    }
  }

  lemma NothingYet(key: string, limit: int, window: real)
    ensures Bucket(Run([], limit, window), key) == [] == Admissions([], key, limit, window)
  {
  }

  /** What the last call does to a key's bucket and to its admissions. */
  lemma OneCall(calls: seq<Call>, key: string, limit: int, window: real)
    requires calls != []
    ensures var before, call := calls[..|calls| - 1], calls[|calls| - 1];
      var was, admitted := Bucket(Run(before, limit, window), key), Admissions(before, key, limit, window);
      var kept := After(was, call.now - window);
      var isBucket, isAdmitted := Bucket(Run(calls, limit, window), key), Admissions(calls, key, limit, window);
      if call.key != key then isBucket == was && isAdmitted == admitted
      else if Allowed(before, call, limit, window) then isBucket == kept + [call.now] && isAdmitted == admitted + [call.now]
      else isBucket == kept && isAdmitted == admitted
  {
    hide After;
  }

  /**
   Over every run with a clock that never goes back, no half-open window of the given length holds more than
   the limit of one key's admissions, however keys are interleaved.
   */
  lemma {:induction false} WindowHoldsTheLimit(calls: seq<Call>, key: string, limit: int, window: real, end: real)
    requires ClockRuns(calls)
    ensures InWindow(Admissions(calls, key, limit, window), end, window) <= if limit < 0 then 0 else limit
    decreases |calls|
  {
    if calls != [] {
      var before, call := calls[..|calls| - 1], calls[|calls| - 1];
      var admitted := Admissions(before, key, limit, window);
      WindowHoldsTheLimit(before, key, limit, window, end);
      OneCall(calls, key, limit, window);
      hide Admissions, Run, After;
      if call.key == key && Allowed(before, call, limit, window) {
        AdmissionsArePast(before, key, limit, window, call.now);
        BucketKeeps(before, key, limit, window, call.now);
        WindowIsKept(admitted, call.now, end, window);
        InWindowAppend(admitted, [call.now], end, window);
        assert InWindow([call.now], end, window) == if end - window < call.now <= end then 1 else 0;
      }
    }
  }

  /** A call is refused exactly when the window that ends with it already holds `limit` admissions of its key. */
  lemma RefusedExactlyWhenFull(calls: seq<Call>, call: Call, limit: int, window: real)
    requires ClockRuns(calls + [call])
    ensures !Allowed(calls, call, limit, window)
            <==> InWindow(Admissions(calls, call.key, limit, window), call.now, window) >= limit
  {
    assert forall i :: 0 <= i < |calls| ==> (calls + [call])[i] == calls[i];
    assert (calls + [call])[|calls|] == call;
    AdmissionsArePast(calls, call.key, limit, window, call.now);
    BucketKeeps(calls, call.key, limit, window, call.now);
    WindowIsKept(Admissions(calls, call.key, limit, window), call.now, call.now, window);
  }
}
