/** The sliding-window limiter on received KEYREQs: `_allow_incoming` of scripts/weechat/rpe2e.py. */
module Limiter {
  const MAX_PER_WINDOW: nat := 3
  const WINDOW_SECS: real := 60.0
  const BACKOFF_SECS: real := 300.0

  datatype Bucket = Bucket(recent: seq<real>, backoffUntil: real)

  const EMPTY := Bucket([], 0.0)

  /** The times less than a window before `now`. */
  function Recent(times: seq<real>, now: real): seq<real> {
    if times == [] then []
    else (if now - times[0] < WINDOW_SECS then [times[0]] else []) + Recent(times[1..], now)
  }

  function Allow(bucket: Bucket, now: real): (Bucket, bool) {
    if bucket.backoffUntil > 0.0 && now < bucket.backoffUntil then (bucket, false)
    else
      var awake := if bucket.backoffUntil > 0.0 then Bucket([], 0.0) else bucket;
      var recent := Recent(awake.recent, now);
      if |recent| >= MAX_PER_WINDOW then (Bucket(recent, now + BACKOFF_SECS), false)
      else (Bucket(recent + [now], awake.backoffUntil), true)
  }

  /** The list comprehension that drops what has left the window. */
  method KeepRecent(times: seq<real>, now: real) returns (kept: seq<real>)
    ensures kept == Recent(times, now)
  {
    kept := [];
    for i := 0 to |times|
      invariant kept == Recent(times[..i], now)
    {
      RecentConcat(times[..i], [times[i]], now);
      assert times[..i] + [times[i]] == times[..i + 1];
      assert [times[i]][1..] == [];
      if now - times[i] < WINDOW_SECS {
        kept := kept + [times[i]];
      }
    }
    assert times[..|times|] == times;
  }

  class IncomingLimiter {
    var buckets: map<string, Bucket>

    constructor ()
      ensures buckets == map[]
    {
      buckets := map[];
    }

    method AllowIncoming(handle: string, now: real) returns (ok: bool)
      modifies this
      ensures ok == Allow(if handle in old(buckets) then old(buckets)[handle] else EMPTY, now).1
      ensures buckets ==
              old(buckets)[handle := Allow(if handle in old(buckets) then old(buckets)[handle] else EMPTY, now).0]
    {
      var bucket := EMPTY;
      if handle in buckets {
        bucket := buckets[handle];
      }
      if bucket.backoffUntil > 0.0 && now < bucket.backoffUntil {
        buckets := buckets[handle := bucket];
        return false;
      }
      if bucket.backoffUntil > 0.0 && now >= bucket.backoffUntil {
        bucket := Bucket([], 0.0);
      }
      var kept := KeepRecent(bucket.recent, now);
      bucket := bucket.(recent := kept);
      if |bucket.recent| >= MAX_PER_WINDOW {
        buckets := buckets[handle := bucket.(backoffUntil := now + BACKOFF_SECS)];
        return false;
      }
      buckets := buckets[handle := bucket.(recent := bucket.recent + [now])];
      ok := true;
    }
  }

  // ----- the reference: a limiter that never forgets -----

  /** Every allowed request so far, and until when requests are refused. */
  datatype Ideal = Ideal(allowed: seq<real>, blockedUntil: real)

  function IdealAllow(state: Ideal, now: real): (Ideal, bool) {
    if now < state.blockedUntil then (state, false)
    else if |Recent(state.allowed, now)| >= MAX_PER_WINDOW then (state.(blockedUntil := now + BACKOFF_SECS), false)
    else (state.(allowed := state.allowed + [now]), true)
  }

  function Run(bucket: Bucket, times: seq<real>): seq<bool>
    decreases |times|
  {
    if times == [] then []
    else
      var (next, ok) := Allow(bucket, times[0]);
      [ok] + Run(next, times[1..])
  }

  function IdealRun(state: Ideal, times: seq<real>): (r: seq<bool>)
    ensures |r| == |times|
    decreases |times|
  {
    if times == [] then []
    else
      var (next, ok) := IdealAllow(state, times[0]);
      [ok] + IdealRun(next, times[1..])
  }

  predicate Clock(times: seq<real>, last: real) {
    times == [] || (last <= times[0] && Clock(times[1..], times[0]))
  }

  predicate AllAtMost(times: seq<real>, bound: real) {
    forall i | 0 <= i < |times| :: times[i] <= bound
  }

  lemma {:induction false} RecentConcat(a: seq<real>, b: seq<real>, now: real)
    ensures Recent(a + b, now) == Recent(a, now) + Recent(b, now)
  {
    if a == [] {
      assert a + b == b;
    } else {
      assert (a + b)[1..] == a[1..] + b;
      RecentConcat(a[1..], b, now);
    }
  }

  /** Filtering for an earlier time first changes nothing. */
  lemma {:induction false} RecentTwice(times: seq<real>, before: real, now: real)
    requires before <= now
    ensures Recent(Recent(times, before), now) == Recent(times, now)
  {
    if times != [] {
      RecentTwice(times[1..], before, now);
      var kept := if before - times[0] < WINDOW_SECS then [times[0]] else [];
      RecentConcat(kept, Recent(times[1..], before), now);
      assert [times[0]][1..] == [];
    }
  }

  lemma {:induction false} RecentOfOld(times: seq<real>, bound: real, now: real)
    requires AllAtMost(times, bound) && now - bound >= WINDOW_SECS
    ensures Recent(times, now) == []
  {
    if times != [] {
      assert forall i | 0 <= i < |times[1..]| :: times[1..][i] == times[i + 1];
      RecentOfOld(times[1..], bound, now);
    }
  }

  /** The bucket remembers everything the reference would still look at. */
  ghost predicate Agrees(bucket: Bucket, state: Ideal, last: real) {
    && last > 0.0 && AllAtMost(state.allowed, last) && bucket.backoffUntil >= 0.0
    && if bucket.backoffUntil > 0.0
       then state.blockedUntil == bucket.backoffUntil && AllAtMost(state.allowed, bucket.backoffUntil - BACKOFF_SECS)
       else state.blockedUntil <= last && forall now | last <= now ::
         Recent(bucket.recent, now) == Recent(state.allowed, now)
  }

  lemma AllowAgrees(bucket: Bucket, state: Ideal, last: real, now: real)
    requires Agrees(bucket, state, last) && last <= now
    ensures Allow(bucket, now).1 == IdealAllow(state, now).1
    ensures Agrees(Allow(bucket, now).0, IdealAllow(state, now).0, now)
  {
    var awake := if bucket.backoffUntil > 0.0 then Bucket([], 0.0) else bucket;
    if !(bucket.backoffUntil > 0.0 && now < bucket.backoffUntil) {
      forall later | now <= later
        ensures Recent(awake.recent, later) == Recent(state.allowed, later)
      {
        if bucket.backoffUntil > 0.0 {
          RecentOfOld(state.allowed, bucket.backoffUntil - BACKOFF_SECS, later);
        }
      }
      var recent := Recent(awake.recent, now);
      if |recent| < MAX_PER_WINDOW {
        forall later | now <= later
          ensures Recent(recent + [now], later) == Recent(state.allowed + [now], later)
        {
          RecentTwice(awake.recent, now, later);
          RecentConcat(recent, [now], later);
          RecentConcat(state.allowed, [now], later);
        }
      }
    }
  }

  lemma {:induction false} RunAgrees(bucket: Bucket, state: Ideal, last: real, times: seq<real>)
    requires Agrees(bucket, state, last) && Clock(times, last)
    ensures Run(bucket, times) == IdealRun(state, times)
    decreases |times|
  {
    if times != [] {
      AllowAgrees(bucket, state, last, times[0]);
      RunAgrees(Allow(bucket, times[0]).0, IdealAllow(state, times[0]).0, times[0], times[1..]);
    }
  }

  /** Clearing the list when back-off ends loses nothing: the source decides as if it had kept every request. */
  lemma NothingForgotten(times: seq<real>)
    requires times != [] && times[0] > 0.0 && Clock(times, times[0])
    ensures Run(EMPTY, times) == IdealRun(Ideal([], 0.0), times)
  {
    RunAgrees(EMPTY, Ideal([], 0.0), times[0], times);
  }

  // ----- what the limiter promises -----

  /** Any four allowed requests span at least a window. */
  predicate Spaced(allowed: seq<real>) {
    forall i, j | 0 <= i && i + MAX_PER_WINDOW <= j < |allowed| :: allowed[j] - allowed[i] >= WINDOW_SECS
  }

  predicate Ascending(times: seq<real>) {
    forall i, j | 0 <= i < j < |times| :: times[i] <= times[j]
  }

  lemma {:induction false} RecentOfAscending(times: seq<real>, now: real, i: nat)
    requires Ascending(times) && i < |times| && now - times[i] < WINDOW_SECS
    ensures |Recent(times, now)| >= |times| - i
  {
    assert forall k | 0 <= k < |times[1..]| :: times[1..][k] == times[k + 1];
    if i > 0 {
      RecentOfAscending(times[1..], now, i - 1);
    } else if |times| > 1 {
      if now - times[1] < WINDOW_SECS {
        RecentOfAscending(times[1..], now, 0);
      }
    }
  }

  lemma IdealKeepsSpacing(state: Ideal, now: real)
    requires Ascending(state.allowed) && Spaced(state.allowed) && AllAtMost(state.allowed, now)
    ensures var next := IdealAllow(state, now).0;
            Ascending(next.allowed) && Spaced(next.allowed) && AllAtMost(next.allowed, now)
  {
    var next := IdealAllow(state, now).0;
    if next.allowed != state.allowed {
      forall i | 0 <= i && i + MAX_PER_WINDOW <= |state.allowed|
        ensures now - state.allowed[i] >= WINDOW_SECS
      {
        if now - state.allowed[i] < WINDOW_SECS {
          RecentOfAscending(state.allowed, now, i);
        }
      }
    }
  }

  /** The requests of a run that were allowed. */
  function Allowed(times: seq<real>, decisions: seq<bool>): seq<real>
    requires |times| == |decisions|
  {
    if times == [] then [] else (if decisions[0] then [times[0]] else []) + Allowed(times[1..], decisions[1..])
  }

  lemma {:induction false} RunIsSpaced(state: Ideal, times: seq<real>, last: real)
    requires Clock(times, last) && Ascending(state.allowed) && Spaced(state.allowed) && AllAtMost(state.allowed, last)
    ensures Spaced(state.allowed + Allowed(times, IdealRun(state, times)))
    decreases |times|
  {
    if times == [] {
      assert state.allowed + [] == state.allowed;
    } else {
      var (next, ok) := IdealAllow(state, times[0]);
      IdealKeepsSpacing(state, times[0]);
      RunIsSpaced(next, times[1..], times[0]);
      var rest := Allowed(times[1..], IdealRun(next, times[1..]));
      assert IdealRun(state, times)[1..] == IdealRun(next, times[1..]);
      assert state.allowed + ((if ok then [times[0]] else []) + rest) == next.allowed + rest;
    }
  }

  /** Over every run with a nondecreasing positive clock, any four allowed requests span at least 60 seconds. */
  lemma AllowedAreSpaced(times: seq<real>)
    requires times != [] && times[0] > 0.0 && Clock(times, times[0])
    ensures |Run(EMPTY, times)| == |times|
    ensures Spaced(Allowed(times, Run(EMPTY, times)))
  {
    NothingForgotten(times);
    RunIsSpaced(Ideal([], 0.0), times, times[0]);
    var allowed := Allowed(times, Run(EMPTY, times));
    assert [] + allowed == allowed;
  }

  /** A request refused for being over the limit, rather than for falling in a back-off. */
  predicate OverLimit(bucket: Bucket, now: real) {
    !Allow(bucket, now).1 && !(bucket.backoffUntil > 0.0 && now < bucket.backoffUntil)
  }

  /** After an over-limit refusal nothing is allowed for 300 seconds, however many requests come. */
  lemma {:induction false} BackoffHolds(bucket: Bucket, now: real, times: seq<real>)
    requires now > 0.0 && OverLimit(bucket, now)
    requires AllBefore(times, now + BACKOFF_SECS)
    ensures forall i | 0 <= i < |Run(Allow(bucket, now).0, times)| :: !Run(Allow(bucket, now).0, times)[i]
  {
    RefusedUntil(Allow(bucket, now).0, times);
  }

  predicate AllBefore(times: seq<real>, bound: real) {
    forall i | 0 <= i < |times| :: times[i] < bound
  }

  lemma {:induction false} RefusedUntil(bucket: Bucket, times: seq<real>)
    requires bucket.backoffUntil > 0.0 && AllBefore(times, bucket.backoffUntil)
    ensures forall i | 0 <= i < |Run(bucket, times)| :: !Run(bucket, times)[i]
  {
    if times != [] {
      assert forall i | 0 <= i < |times[1..]| :: times[1..][i] == times[i + 1];
      RefusedUntil(bucket, times[1..]);
    }
  }
}
