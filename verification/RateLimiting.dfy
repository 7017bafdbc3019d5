/**
  The sliding-window limiter of the login endpoint (backend/app/rate_limiting.py). Times are real
  numbers of seconds; rounding of floating point is not modelled. `check` runs under a lock, so a
  run of the limiter is a sequence of checks.
 */
module RateLimiting {

  datatype RateLimitResult = RateLimitResult(allowed: bool, retryAfterSeconds: int)

  type Key = string
  type Events = map<Key, seq<real>>

  /** The bucket of a key; a key never seen has the empty one, as in a `defaultdict`. */
  function Bucket(events: Events, key: Key): seq<real> {
    if key in events then events[key] else []
  }

  /** What the popping loop leaves: the bucket from the first attempt after the cutoff on. */
  function Expire(bucket: seq<real>, cutoff: real): seq<real> {
    if bucket != [] && bucket[0] <= cutoff then Expire(bucket[1..], cutoff) else bucket
  }

  function Decide(bucket: seq<real>, limit: nat, window: real, now: real): RateLimitResult
    requires limit >= 1
  {
    var live := Expire(bucket, now - window);
    if |live| >= limit then
      var left := (live[0] + window - now).Floor + 1;
      RateLimitResult(false, if left > 1 then left else 1)
    else RateLimitResult(true, 0)
  }

  function NextBucket(bucket: seq<real>, limit: nat, window: real, now: real): seq<real>
    requires limit >= 1
  {
    var live := Expire(bucket, now - window);
    if |live| >= limit then live else live + [now]
  }

  class SlidingWindowRateLimiter {
    const limit: nat
    const window: real
    var events: Events

    /** The configuration accepts positive limits only; with none, the first check would fail. */
    constructor (limit: nat, window: real)
      requires limit >= 1
      ensures this.limit == limit && this.window == window && events == map[]
    {
      this.limit, this.window, events := limit, window, map[];
    }

    method Check(key: Key, now: real) returns (r: RateLimitResult)
      requires limit >= 1
      modifies this
      ensures r == Decide(Bucket(old(events), key), limit, window, now)
      ensures events == old(events)[key := NextBucket(Bucket(old(events), key), limit, window, now)]
    {
      var bucket := Bucket(events, key);
      var cutoff := now - window;
      while bucket != [] && bucket[0] <= cutoff
        invariant Expire(bucket, cutoff) == Expire(Bucket(events, key), cutoff)
        invariant events == old(events)
        decreases |bucket|
      {
        bucket := bucket[1..];
      }
      if |bucket| >= limit {
        var oldest := bucket[0];
        var retryAfter := (oldest + window - now).Floor + 1;
        if retryAfter < 1 {
          retryAfter := 1;
        }
        events := events[key := bucket];
        return RateLimitResult(false, retryAfter);
      }
      bucket := bucket + [now];
      events := events[key := bucket];
      r := RateLimitResult(true, 0);
    }

    method Reset()
      modifies this
      ensures events == map[]
    {
      events := map[];
    }
  }

  // ---------------------------------------------------------------- runs

  datatype Attempt = Attempt(key: Key, at: real)

  predicate Chronological(run: seq<Attempt>) {
    forall i, j :: 0 <= i < j < |run| ==> run[i].at <= run[j].at
  }

  /** The limiter's state after a run of checks that began with a fresh limiter. */
  function After(run: seq<Attempt>, limit: nat, window: real): Events
    requires limit >= 1
  {
    if run == [] then map[]
    else
      var before := After(run[..|run| - 1], limit, window);
      var last := run[|run| - 1];
      before[last.key := NextBucket(Bucket(before, last.key), limit, window, last.at)]
  }

  /** The answer to the last check of a run. */
  function Answer(run: seq<Attempt>, limit: nat, window: real): RateLimitResult
    requires limit >= 1 && run != []
  {
    var last := run[|run| - 1];
    Decide(Bucket(After(run[..|run| - 1], limit, window), last.key), limit, window, last.at)
  }

  /** The times at which a run allowed an attempt of one key. */
  function AllowedTimes(run: seq<Attempt>, key: Key, limit: nat, window: real): seq<real>
    requires limit >= 1
  {
    if run == [] then []
    else
      var earlier := AllowedTimes(run[..|run| - 1], key, limit, window);
      var last := run[|run| - 1];
      if last.key == key && Answer(run, limit, window).allowed then earlier + [last.at] else earlier
  }

  predicate Ascending(s: seq<real>) {
    forall i, j :: 0 <= i < j < |s| ==> s[i] <= s[j]
  }

  lemma {:induction false} ExpireIsSuffix(bucket: seq<real>, cutoff: real) returns (k: nat)
    requires Ascending(bucket)
    ensures k <= |bucket| && Expire(bucket, cutoff) == bucket[k..]
    ensures forall i :: 0 <= i < k ==> bucket[i] <= cutoff
    ensures forall i :: k <= i < |bucket| ==> bucket[i] > cutoff
  {
    if bucket != [] && bucket[0] <= cutoff {
      k := ExpireIsSuffix(bucket[1..], cutoff);
      k := k + 1;
    } else {
      k := 0;
    }
  }

  /** The time of the last attempt of a run, or a bound below it. */
  ghost predicate NotAfter(run: seq<Attempt>, t: real) {
    forall i :: 0 <= i < |run| ==> run[i].at <= t
  }

  /**
    What the limiter remembers of a key is a suffix of the allowed attempts: at most `limit` of
    them, and every allowed attempt it has forgotten is at least one window old.
   */
  ghost predicate Remembers(bucket: seq<real>, times: seq<real>, limit: nat, window: real, now: real) {
    && Ascending(times) && |bucket| <= limit && |bucket| <= |times|
    && bucket == times[|times| - |bucket|..]
    && (forall i :: 0 <= i < |times| ==> times[i] <= now)
    && (forall i :: 0 <= i < |times| - |bucket| ==> times[i] <= now - window)
  }

  lemma RemembersExpired(bucket: seq<real>, times: seq<real>, limit: nat, window: real, before: real, now: real, k: nat)
    requires before <= now && Remembers(bucket, times, limit, window, before) && k <= |bucket|
    requires forall i :: 0 <= i < k ==> bucket[i] <= now - window
    ensures Remembers(bucket[k..], times, limit, window, now)
  {
    var forgotten := |times| - |bucket|;
    assert bucket[k..] == times[forgotten + k..];
    forall i | 0 <= i < forgotten + k ensures times[i] <= now - window {
      if forgotten <= i {
        assert times[i] == bucket[i - forgotten];
      }
    }
  }

  lemma RemembersAllowed(live: seq<real>, times: seq<real>, limit: nat, window: real, now: real)
    requires Remembers(live, times, limit, window, now) && |live| < limit
    ensures Remembers(live + [now], times + [now], limit, window, now)
  {
  }

  lemma RemembersStep(bucket: seq<real>, times: seq<real>, limit: nat, window: real, before: real, now: real)
    requires limit >= 1 && before <= now && Remembers(bucket, times, limit, window, before)
    ensures
      var times' := if Decide(bucket, limit, window, now).allowed then times + [now] else times;
      Remembers(NextBucket(bucket, limit, window, now), times', limit, window, now)
  {
    var k := ExpireIsSuffix(bucket, now - window);
    RemembersExpired(bucket, times, limit, window, before, now, k);
    if Decide(bucket, limit, window, now).allowed {
      RemembersAllowed(bucket[k..], times, limit, window, now);
    }
  }

  lemma RemembersLater(bucket: seq<real>, times: seq<real>, limit: nat, window: real, before: real, now: real)
    requires before <= now && Remembers(bucket, times, limit, window, before)
    ensures Remembers(bucket, times, limit, window, now)
  {
  }

  lemma {:induction false} RunRemembers(run: seq<Attempt>, key: Key, limit: nat, window: real, now: real)
    requires limit >= 1 && Chronological(run) && NotAfter(run, now)
    ensures Remembers(Bucket(After(run, limit, window), key), AllowedTimes(run, key, limit, window), limit, window, now)
  {
    if run != [] {
      var front, last := run[..|run| - 1], run[|run| - 1];
      RunRemembers(front, key, limit, window, last.at);
      var bucket, times := Bucket(After(front, limit, window), key), AllowedTimes(front, key, limit, window);
      if last.key == key {
        RemembersStep(bucket, times, limit, window, last.at, last.at);
        bucket := NextBucket(bucket, limit, window, last.at);
        times := AllowedTimes(run, key, limit, window);
      }
      RemembersLater(bucket, times, limit, window, last.at, now);
    }
  }

  /** The bound kept along a run: attempts `limit` apart are more than one window apart. */
  ghost predicate Spread(times: seq<real>, limit: nat, window: real) {
    forall i, j :: 0 <= i && i + limit <= j < |times| ==> times[j] - times[i] >= window
  }

  lemma {:induction false} RunIsSpread(run: seq<Attempt>, key: Key, limit: nat, window: real)
    requires limit >= 1 && Chronological(run)
    ensures Spread(AllowedTimes(run, key, limit, window), limit, window)
  {
    if run != [] {
      var front, last := run[..|run| - 1], run[|run| - 1];
      RunIsSpread(front, key, limit, window);
      RunRemembers(front, key, limit, window, last.at);
      if last.key == key && Answer(run, limit, window).allowed {
      }
    }
  }

  /** How many of the times are later than an instant. */
  ghost function Newer(times: seq<real>, cutoff: real): nat {
    if times == [] then 0
    else Newer(times[..|times| - 1], cutoff) + (if times[|times| - 1] > cutoff then 1 else 0)
  }

  lemma {:induction false} NewerCounts(times: seq<real>, k: nat, cutoff: real)
    requires k <= |times|
    requires forall i :: 0 <= i < k ==> times[i] <= cutoff
    requires forall i :: k <= i < |times| ==> times[i] > cutoff
    ensures Newer(times, cutoff) == |times| - k
  {
    if times != [] {
      NewerCounts(times[..|times| - 1], if k < |times| then k else k - 1, cutoff);
    }
  }

  /**
    The exact decision: after any run, a check is allowed if and only if fewer than `limit` attempts
    of its key have been allowed within the last window. Only a refused one is told to wait, at least a second.
   */
  lemma AllowedIffFewerThanLimit(run: seq<Attempt>, key: Key, now: real, limit: nat, window: real)
    requires limit >= 1 && Chronological(run) && NotAfter(run, now)
    ensures Decide(Bucket(After(run, limit, window), key), limit, window, now).allowed
       <==> Newer(AllowedTimes(run, key, limit, window), now - window) < limit
    ensures var answer := Decide(Bucket(After(run, limit, window), key), limit, window, now);
            if answer.allowed then answer.retryAfterSeconds == 0 else answer.retryAfterSeconds >= 1
  {
    RunRemembers(run, key, limit, window, now);
    BucketDecides(Bucket(After(run, limit, window), key), AllowedTimes(run, key, limit, window), limit, window, now);
  }

  lemma BucketDecides(bucket: seq<real>, times: seq<real>, limit: nat, window: real, now: real)
    requires limit >= 1 && Remembers(bucket, times, limit, window, now)
    ensures Decide(bucket, limit, window, now).allowed <==> Newer(times, now - window) < limit
  {
    var k := ExpireIsSuffix(bucket, now - window);
    var forgotten := |times| - |bucket|;
    forall i | forgotten <= i < |times| ensures times[i] == bucket[i - forgotten] {
    }
    NewerCounts(times, forgotten + k, now - window);
  }

  /** How many of the times fall into the half-open window [from, from + window). */
  ghost function InWindow(times: seq<real>, from: real, window: real): nat {
    if times == [] then 0
    else InWindow(times[..|times| - 1], from, window)
         + (if from <= times[|times| - 1] < from + window then 1 else 0)
  }

  lemma {:induction false} SpreadBoundsWindow(times: seq<real>, from: real, limit: nat, window: real)
    requires limit >= 1 && Ascending(times) && Spread(times, limit, window)
    ensures InWindow(times, from, window) <= limit
    ensures InWindow(times, from, window) > 0 ==>
      var first := |times| - InWindow(times, from, window) - Beyond(times, from + window);
      first >= 0 && times[first] >= from
  {
    if times != [] {
      var front, last := times[..|times| - 1], times[|times| - 1];
      SpreadBoundsWindow(front, from, limit, window);
      if from <= last < from + window {
        NothingBeyond(front, from + window);
        NothingBeyond(times, from + window);
      }
    }
  }

  /** How many of the times are at or past an instant. */
  ghost function Beyond(times: seq<real>, t: real): nat {
    if times == [] then 0 else Beyond(times[..|times| - 1], t) + (if times[|times| - 1] >= t then 1 else 0)
  }

  lemma {:induction false} NothingBeyond(times: seq<real>, t: real)
    requires forall i :: 0 <= i < |times| ==> times[i] < t
    ensures Beyond(times, t) == 0
  {
    if times != [] {
      NothingBeyond(times[..|times| - 1], t);
    }
  }

  /**
    The limit holds over every window of every run: no half-open interval of the configured length
    contains more than `limit` allowed attempts of one key.
   */
  lemma WindowBound(run: seq<Attempt>, key: Key, limit: nat, window: real, from: real)
    requires limit >= 1 && Chronological(run)
    ensures InWindow(AllowedTimes(run, key, limit, window), from, window) <= limit
  {
    RunIsSpread(run, key, limit, window);
    if run != [] {
      RunRemembers(run, key, limit, window, run[|run| - 1].at);
    }
    SpreadBoundsWindow(AllowedTimes(run, key, limit, window), from, limit, window);
  }

  /**
    After a refusal, with no other attempt of that key in between, a later check is allowed exactly
    when the oldest remembered attempt has left the window; waiting for the advised number of
    seconds is always enough, and at most one second too long.
   */
  lemma RefusalLastsUntilExpiry(run: seq<Attempt>, key: Key, refused: real, later: real, limit: nat, window: real)
    requires limit >= 1 && Chronological(run) && NotAfter(run, refused) && refused <= later
    requires !Decide(Bucket(After(run, limit, window), key), limit, window, refused).allowed
    ensures
      var bucket := Bucket(After(run, limit, window), key);
      var live := Expire(bucket, refused - window);
      var next := NextBucket(bucket, limit, window, refused);
      && |live| == limit && next == live
      && (Decide(next, limit, window, later).allowed <==> later >= live[0] + window)
      && (later >= refused + Decide(bucket, limit, window, refused).retryAfterSeconds as real
          ==> Decide(next, limit, window, later).allowed)
      && Decide(bucket, limit, window, refused).retryAfterSeconds as real <= live[0] + window - refused + 1.0
  {
    RunRemembers(run, key, limit, window, refused);
    var bucket := Bucket(After(run, limit, window), key);
    var k := ExpireIsSuffix(bucket, refused - window);
    FullBucketRefusesUntilExpiry(Expire(bucket, refused - window), refused, later, limit, window);
    assert (Expire(bucket, refused - window)[0] + window - refused).Floor >= 0;
  }

  lemma FullBucketRefusesUntilExpiry(live: seq<real>, refused: real, later: real, limit: nat, window: real)
    requires limit >= 1 && |live| == limit && Ascending(live)
    ensures Decide(live, limit, window, later).allowed <==> later >= live[0] + window
    ensures later >= refused + ((live[0] + window - refused).Floor + 1) as real ==> later >= live[0] + window
  {
    var j := ExpireIsSuffix(live, later - window);
  }

  /** A check leaves the buckets of all other keys as they are. */
  lemma OtherKeysUnaffected(run: seq<Attempt>, attempt: Attempt, key: Key, limit: nat, window: real)
    requires limit >= 1 && attempt.key != key
    ensures Bucket(After(run + [attempt], limit, window), key) == Bucket(After(run, limit, window), key)
    ensures AllowedTimes(run + [attempt], key, limit, window) == AllowedTimes(run, key, limit, window)
  {
  }
}
