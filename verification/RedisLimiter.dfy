/** The Redis rate limiter (crawler/ratelimit/redis_limiter.py): a polling loop over the shared script. */
module RedisLimiter {
  import opened Reals
  import opened Wrappers
  import opened TokenBucket
  import LocalLimiter

  type Oversleep = LocalLimiter.Oversleep

  ghost predicate OnTime(lag: Oversleep) {
    forall n: nat :: n in lag && lag[n] == 0.0
  }

  /** The number of capped naps that make up a wait. */
  function Naps(waitMs: int, maxWait: real): int
    requires maxWait > 0.0
  {
    Ceil(waitMs as real / maxWait)
  }

  /** That is the least number of naps that reaches the wait. */
  lemma NapsAreLeast(waitMs: nat, maxWait: real)
    requires maxWait > 0.0
    ensures var n := Naps(waitMs, maxWait) as real; n * maxWait - maxWait < waitMs as real <= n * maxWait
  {
    Enough(Naps(waitMs, maxWait) as real, waitMs as real / maxWait, maxWait, waitMs as real);
  }

  lemma Enough(n: real, q: real, nap: real, wait: real)
    requires nap > 0.0 && q * nap == wait && n - 1.0 < q <= n
    ensures n * nap - nap < wait <= n * nap
  {
    var over, under := n - q, q - (n - 1.0);
    ProductNonNegative(over, nap);
    ProductPositive(under, nap);
    assert over * nap == n * nap - q * nap;
    assert under * nap == q * nap - (n - 1.0) * nap;
    assert (n - 1.0) * nap == n * nap - nap;
    var a, b, c := n * nap, q * nap, under * nap;
    assert c == b - (a - nap) && c > 0.0;
  }

  lemma CallsBound(waitMs: nat, maxWait: real, n: nat)
    requires maxWait > 0.0 && n as real * maxWait < waitMs as real
    ensures n < Naps(waitMs, maxWait)
  {
    var q := waitMs as real / maxWait;
    assert q * maxWait == waitMs as real;
    assert (n as real - q) * maxWait == n as real * maxWait - q * maxWait;
    if n as real >= q {
      ProductNonNegative(n as real - q, maxWait);
    }
  }

  lemma OneMoreNap(n: nat, maxWait: real)
    ensures (n + 1) as real * maxWait == n as real * maxWait + maxWait
  {
  }

  /** A caller that has been refused `n` times, first at `start`, and has napped until `end`. */
  ghost predicate Waiting(maxWait: real, start: real, first: Reply, n: nat, end: real) {
    && start.Floor <= end.Floor
    && (end >= (start.Floor + first.waitMs) as real || end >= start.Floor as real + n as real * maxWait)
    && n >= 1 && (n - 1) as real * maxWait < first.waitMs as real
  }

  /** From `end` on the script answers as if it had found `left`. */
  ghost predicate AsLeft(capacity: real, rate: real, left: Bucket, stored: Option<Bucket>, end: real)
    requires rate > 0.0
  {
    forall t :: t >= end.Floor ==> Script(capacity, rate, t, 1.0, stored) == Script(capacity, rate, t, 1.0, Some(left))
  }

  lemma SameAsLeft(capacity: real, rate: real, left: Bucket, end: real)
    requires rate > 0.0
    ensures AsLeft(capacity, rate, left, Some(left), end)
  {
  }

  /** A refusal leaves no trace: later answers are those for the bucket it found. */
  lemma RefusalUnseen(capacity: real, rate: real, b: Bucket, t1: int, t2: int)
    requires rate > 0.0 && b.ts <= t1 <= t2 && !Script(capacity, rate, t1, 1.0, Some(b)).allowed
    ensures Script(capacity, rate, t2, 1.0, Some(Script(capacity, rate, t1, 1.0, Some(b)).bucket))
         == Script(capacity, rate, t2, 1.0, Some(b))
  {
    RefillComposes(capacity, rate, b, t1, t2);
  }

  lemma StaysAsLeft(capacity: real, rate: real, left: Bucket, end: real, later: real)
    requires rate > 0.0 && left.ts <= end.Floor <= later.Floor
    requires !Script(capacity, rate, end.Floor, 1.0, Some(left)).allowed
    ensures AsLeft(capacity, rate, left, Some(Script(capacity, rate, end.Floor, 1.0, Some(left)).bucket), later)
  {
    forall t | t >= later.Floor {
      RefusalUnseen(capacity, rate, left, end.Floor, t);
    }
  }

  /** The script's answer at `end`: a refusal comes before the deadline that the first one announced and
      announces the same deadline; a grant does not come before it. */
  lemma AnswerAt(capacity: real, rate: real, start: real, stored: Option<Bucket>, end: real)
    requires rate > 0.0 && start.Floor <= end.Floor
    requires !Script(capacity, rate, start.Floor, 1.0, stored).allowed
    ensures var first := Script(capacity, rate, start.Floor, 1.0, stored);
            var r := Script(capacity, rate, end.Floor, 1.0, Some(first.bucket));
            && first.waitMs >= 1 && first.bucket.ts == start.Floor
            && (r.allowed <==> end.Floor >= start.Floor + first.waitMs && capacity >= 1.0)
            && (!r.allowed ==> r.waitMs >= 1)
            && (!r.allowed && capacity >= 1.0 ==> end.Floor + r.waitMs == start.Floor + first.waitMs)
  {
    var first := Script(capacity, rate, start.Floor, 1.0, stored);
    WaitIsExact(capacity, rate, start.Floor, 1.0, stored, end.Floor - start.Floor);
    if !Script(capacity, rate, end.Floor, 1.0, Some(first.bucket)).allowed {
      if capacity >= 1.0 {
        DeadlineStands(capacity, rate, start.Floor, end.Floor, 1.0, stored);
      }
      WaitIsExact(capacity, rate, end.Floor, 1.0, Some(first.bucket), 0);
    }
  }

  lemma FirstNap(maxWait: real, start: real, first: Reply, end: real)
    requires maxWait > 0.0 && first.waitMs >= 1 && end >= start + Min(first.waitMs as real, maxWait)
    ensures Waiting(maxWait, start, first, 1, end)
    ensures end == start + Min(first.waitMs as real, maxWait) ==> end.Floor <= start.Floor + first.waitMs
  {
  }

  lemma NextNap(maxWait: real, start: real, first: Reply, n: nat, end: real, waitMs: int, later: real)
    requires maxWait > 0.0 && Waiting(maxWait, start, first, n, end)
    requires waitMs >= 1 && end.Floor + waitMs == start.Floor + first.waitMs
    requires later >= end + Min(waitMs as real, maxWait)
    ensures Waiting(maxWait, start, first, n + 1, later) && end.Floor <= later.Floor
    ensures later == end + Min(waitMs as real, maxWait) ==> later.Floor <= start.Floor + first.waitMs
  {
    OneMoreNap(n, maxWait);
  }

  lemma RefusalsBound(maxWait: real, start: real, first: Reply, n: nat, end: real)
    requires maxWait > 0.0 && first.waitMs >= 1 && Waiting(maxWait, start, first, n, end)
    ensures start.Floor <= end.Floor && n <= Naps(first.waitMs, maxWait)
  {
    CallsBound(first.waitMs, maxWait, n - 1);
  }

  /** What the polling loop keeps, before its first call and between calls. With exact sleeps it never
      oversleeps the deadline. */
  ghost predicate Polling(capacity: real, rate: real, maxWait: real, start: real, found: Option<Bucket>, calls: nat,
                          end: real, stored: Option<Bucket>, exact: bool)
    requires rate > 0.0 && maxWait > 0.0
  {
    var first := Script(capacity, rate, start.Floor, 1.0, found);
    if calls == 0 then end == start && stored == found
    else
      && !first.allowed && stored.Some? && AsLeft(capacity, rate, first.bucket, stored, end)
      && start.Floor <= end.Floor
      && (capacity >= 1.0 ==>
          Waiting(maxWait, start, first, calls, end) && (exact ==> end.Floor <= start.Floor + first.waitMs))
  }

  /** How the loop ends: with the token at the deadline, or unreachable Redis before it. `left` is the bucket
      in the store. Capped naps cost calls but no time, and leave the bucket as one long sleep would. */
  ghost predicate Polled(capacity: real, rate: real, maxWait: real, start: real, found: Option<Bucket>, calls: nat,
                         end: real, granted: bool, left: Bucket, exact: bool)
    requires rate > 0.0 && maxWait > 0.0
  {
    var first := Script(capacity, rate, start.Floor, 1.0, found);
    && calls >= 1 && (capacity >= 1.0 ==> calls <= MaxCalls(capacity, rate, maxWait, start, found))
    && if first.allowed then granted && end == start && left == first.bucket
       else if granted then
         var r := Script(capacity, rate, end.Floor, 1.0, Some(first.bucket));
         && r.allowed && left == r.bucket && end.Floor >= start.Floor + first.waitMs
         && (exact ==> end.Floor == start.Floor + first.waitMs)
       else AsLeft(capacity, rate, first.bucket, Some(left), end)
  }

  /** An upper bound on the calls. */
  ghost function MaxCalls(capacity: real, rate: real, maxWait: real, start: real, found: Option<Bucket>): int
    requires rate > 0.0 && maxWait > 0.0
  {
    var first := Script(capacity, rate, start.Floor, 1.0, found);
    1 + if first.allowed then 0 else Naps(first.waitMs, maxWait)
  }

  /** One turn of the loop, whatever the script answers. */
  lemma Turn(capacity: real, rate: real, maxWait: real, start: real, found: Option<Bucket>, calls: nat, end: real,
             stored: Option<Bucket>, late: real, exact: bool)
    requires rate > 0.0 && maxWait > 0.0 && late >= 0.0 && (exact ==> late == 0.0)
    requires Polling(capacity, rate, maxWait, start, found, calls, end, stored, exact)
    ensures calls > 0 ==>
        stored.Some? && Polled(capacity, rate, maxWait, start, found, calls + 1, end, false, stored.value, exact)
    ensures var r := Script(capacity, rate, end.Floor, 1.0, stored);
            if r.allowed then Polled(capacity, rate, maxWait, start, found, calls + 1, end, true, r.bucket, exact)
            else
              && Polling(capacity, rate, maxWait, start, found, calls + 1, end + Min(r.waitMs as real, maxWait) + late,
                         Some(r.bucket), exact)
              && (capacity >= 1.0 ==> calls + 1 < MaxCalls(capacity, rate, maxWait, start, found))
    ensures capacity < 1.0 ==> !Script(capacity, rate, end.Floor, 1.0, stored).allowed
  {
    hide Script, Naps;
    var first := Script(capacity, rate, start.Floor, 1.0, found);
    var r := Script(capacity, rate, end.Floor, 1.0, stored);
    var later := end + Min(r.waitMs as real, maxWait) + late;
    SmallBucketRefuses(capacity, rate, end.Floor, stored);
    if !first.allowed {
      AnswerAt(capacity, rate, start, found, end);
      AnswerAt(capacity, rate, start, found, start);
      if calls == 0 {
        SameAsLeft(capacity, rate, first.bucket, later);
      } else if !r.allowed {
        StaysAsLeft(capacity, rate, first.bucket, end, later);
      }
      if capacity >= 1.0 {
        TurnInTime(maxWait, start, first, calls, end, r, later);
      }
    }
  }

  /** The account of the naps over one turn. */
  lemma TurnInTime(maxWait: real, start: real, first: Reply, calls: nat, end: real, r: Reply, later: real)
    requires maxWait > 0.0 && first.waitMs >= 1
    requires if calls == 0 then end == start && r == first else Waiting(maxWait, start, first, calls, end)
    requires !r.allowed ==>
               && r.waitMs >= 1 && end.Floor + r.waitMs == start.Floor + first.waitMs
               && later >= end + Min(r.waitMs as real, maxWait)
    ensures calls <= Naps(first.waitMs, maxWait)
    ensures !r.allowed ==> Waiting(maxWait, start, first, calls + 1, later) && calls + 1 <= Naps(first.waitMs, maxWait)
    ensures !r.allowed && later == end + Min(r.waitMs as real, maxWait) ==> later.Floor <= start.Floor + first.waitMs
  {
    hide Naps;
    if calls == 0 {
      FirstNap(maxWait, start, first, start + Min(first.waitMs as real, maxWait));
      RefusalsBound(maxWait, start, first, 1, start + Min(first.waitMs as real, maxWait));
      if !r.allowed {
        FirstNap(maxWait, start, first, later);
      }
    } else {
      RefusalsBound(maxWait, start, first, calls, end);
      if !r.allowed {
        NextNap(maxWait, start, first, calls, end, r.waitMs, later);
        RefusalsBound(maxWait, start, first, calls + 1, later);
      }
    }
  }

  /** A bucket smaller than one token never grants. */
  lemma SmallBucketRefuses(capacity: real, rate: real, now: int, stored: Option<Bucket>)
    requires rate > 0.0
    ensures capacity < 1.0 ==> !Script(capacity, rate, now, 1.0, stored).allowed
  {
  }

  // ---------------------------------------------------------------- the shared store

  type Log = map<string, seq<Call>>

  ghost function CallsTo(log: Log, host: string): seq<Call> {
    if host in log then log[host] else []
  }

  function BucketAt(store: map<string, Bucket>, host: string): Option<Bucket> {
    if host in store then Some(store[host]) else None
  }

  /** Each key holds what the script calls of all workers have left. */
  ghost predicate Tracks(capacity: real, store: map<string, Bucket>, log: Log) {
    forall host :: Calls(CallsTo(log, host)) && BucketAt(store, host) == Stored(capacity, None, CallsTo(log, host))
  }

  lemma TrackCall(capacity: real, store: map<string, Bucket>, log: Log, host: string, call: Call)
    requires Tracks(capacity, store, log) && call.rate > 0.0
    ensures Tracks(capacity, store[host := Script(capacity, call.rate, call.now, 1.0, BucketAt(store, host)).bucket],
                   log[host := CallsTo(log, host) + [call]])
  {
    var calls := CallsTo(log, host);
    assert (calls + [call])[..|calls|] == calls;
    var store' := store[host := Script(capacity, call.rate, call.now, 1.0, BucketAt(store, host)).bucket];
    var log' := log[host := calls + [call]];
    assert Calls(calls + [call]);
    assert BucketAt(store', host) == Stored(capacity, None, CallsTo(log', host));
    hide Stored, Script;
    forall h
      ensures Calls(CallsTo(log', h)) && BucketAt(store', h) == Stored(capacity, None, CallsTo(log', h))
    {
      assert Calls(CallsTo(log, h)) && BucketAt(store, h) == Stored(capacity, None, CallsTo(log, h));
    }
  }

  class RedisRateLimiter {
    const capacity: real
    const maxWaitMs: real
    /** The keys of the shared store. */
    var store: map<string, Bucket>
    /** All calls of the script, by host. */
    ghost var log: Log

    /** The bounds on runs of the script hold for what the workers have done. */
    ghost predicate Valid()
      reads this
    {
      Tracks(capacity, store, log)
    }

    constructor (capacity: real, maxWaitMs: real)
      ensures Valid() && this.capacity == capacity && this.maxWaitMs == maxWaitMs && store == map[] && log == map[]
    {
      this.capacity, this.maxWaitMs := capacity, maxWaitMs;
      store, log := map[], map[];
    }

    /** One call of the script, by whichever worker. */
    method RunScript(host: string, rate: real, now: int) returns (r: Reply)
      requires Valid() && rate > 0.0
      modifies this
      ensures Valid() && r == Script(capacity, rate, now, 1.0, old(BucketAt(store, host)))
      ensures store == old(store)[host := r.bucket]
      ensures log == old(log)[host := old(CallsTo(log, host)) + [Call(now, rate)]]
    {
      TrackCall(capacity, store, log, host, Call(now, rate));
      hide Tracks, Script;
      r := Script(capacity, rate, now, 1.0, BucketAt(store, host));
      store := store[host := r.bucket];
      log := log[host := CallsTo(log, host) + [Call(now, rate)]];
    }

    /** The polling loop of a caller that nobody disturbs; `up` says which calls reach Redis. Time is in
        milliseconds, of which the script sees the whole part. Capped naps cost calls but no time: the
        token comes at the deadline that the first refusal announced, and the bucket is left as if the
        caller had slept through. Below a capacity of one only a failing call ends the loop. */
    method Acquire(host: string, rate: real, start: real, lag: Oversleep, up: iset<nat>)
      returns (end: real, calls: nat)
      requires Valid() && maxWaitMs > 0.0 && LocalLimiter.NeverEarly(lag)
      requires rate > 0.0 && capacity < 1.0 ==> exists n: nat :: n !in up
      modifies this
      ensures Valid()
      ensures rate <= 0.0 ==> calls == 0 && store == old(store) && log == old(log) && end == start
      ensures rate > 0.0 && 0 !in up ==> calls == 1 && store == old(store) && log == old(log) && end == start
      ensures rate > 0.0 && 0 in up ==>
                && calls > 0 && host in store && store == old(store)[host := store[host]]
                && Polled(capacity, rate, maxWaitMs, start, old(BucketAt(store, host)), calls, end, calls - 1 in up,
                    store[host],
                          OnTime(lag))
      ensures rate > 0.0 && capacity < 1.0 ==> calls > 0 && calls - 1 !in up && forall n: nat :: n < calls - 1 ==>
              n in up
    {
      calls, end := 0, start;
      if rate <= 0.0 {
        return;
      }
      ghost var found, exact, store0 := BucketAt(store, host), OnTime(lag), store;
      ghost var down: nat :| capacity < 1.0 ==> down !in up;
      hide *;
      while true
        invariant Valid() && (calls == 0 ==> log == old(log))
        invariant Polling(capacity, rate, maxWaitMs, start, found, calls, end, BucketAt(store, host), exact)
        invariant if calls == 0 then store == store0
                  else 0 in up && host in store && store == store0[host := store[host]]
        invariant (forall n: nat :: n < calls ==> n in up) && (capacity < 1.0 ==> calls <= down)
        decreases if capacity >= 1.0 then MaxCalls(capacity, rate, maxWaitMs, start, found) - calls else down - calls
      {
        Turn(capacity, rate, maxWaitMs, start, found, calls, end, BucketAt(store, host), lag[calls], exact);
        var now := end.Floor;
        if calls !in up {
          calls := calls + 1;
          return;
        }
        var r := RunScript(host, rate, now);
        calls := calls + 1;
        if r.allowed {
          return;
        }
        end := end + Min(r.waitMs as real, maxWaitMs) + lag[calls - 1];
      }
    }
  }

  // ---------------------------------------------------------------- competition

  /** Every second a competitor calls just before our caller. */
  function Contested(n: nat): seq<Call> {
    seq(2 * n, l requires 0 <= l => Call(1000 * (l / 2), 1.0))
  }

  lemma ContestedStep(n: nat)
    ensures Contested(n + 1) == Contested(n) + [Call(1000 * n, 1.0), Call(1000 * n, 1.0)]
    ensures Contested(n + 1)[..2 * n] == Contested(n)
            && Contested(n + 1)[..2 * n + 1] == Contested(n) + [Call(1000 * n, 1.0)]
  {
  }

  /** One second: the competitor takes the token that has come, our caller is told to wait a second. */
  lemma Round(k: nat)
    ensures var stored := if k == 0 then None else Some(Bucket(0.0, 1000 * (k - 1)));
            && Script(1.0, 1.0, 1000 * k, 1.0, stored) == Reply(true, 0, Bucket(0.0, 1000 * k))
            && Script(1.0, 1.0, 1000 * k, 1.0, Some(Bucket(0.0, 1000 * k))) == Reply(false, 1000, Bucket(0.0, 1000 * k))
  {
    assert Earned(1.0, 1000) == 1.0 && Earned(1.0, 0) == 0.0;
  }

  lemma {:induction false} ContestedLeaves(n: nat)
    ensures Calls(Contested(n))
    ensures Stored(1.0, None, Contested(n)) == if n == 0 then None else Some(Bucket(0.0, 1000 * (n - 1)))
  {
    if n > 0 {
      var k := n - 1;
      ContestedLeaves(k);
      ContestedStep(k);
      Round(k);
      TwoCalls(Contested(k), Call(1000 * k, 1.0));
    }
  }

  lemma TwoCalls(calls: seq<Call>, call: Call)
    requires Calls(calls) && call.rate > 0.0
    ensures Calls(calls + [call]) && Calls(calls + [call, call])
    ensures var first := Script(1.0, call.rate, call.now, 1.0, Stored(1.0, None, calls));
            && Stored(1.0, None, calls + [call]) == Some(first.bucket)
            && Stored(1.0, None, calls + [call, call])
                == Some(Script(1.0, call.rate, call.now, 1.0, Some(first.bucket)).bucket)
  {
    assert (calls + [call])[..|calls|] == calls;
    assert (calls + [call, call])[..|calls| + 1] == calls + [call];
    hide Script;
  }

  /** Without the undisturbed caller there is no bound on the polls: with capacity and rate one, a caller
      that sleeps exactly as it is told but always comes second is refused every time. */
  lemma CompetitorStarves(n: nat, k: nat)
    requires k < n
    ensures Calls(Contested(n)) && |Contested(n)| == 2 * n
    ensures !Granted(1.0, None, Contested(n), 2 * k + 1)
    ensures var r := Script(1.0, 1.0, 1000 * k, 1.0, Stored(1.0, None, Contested(n)[..2 * k + 1]));
            Contested(n)[2 * k + 1].now == 1000 * k && 1000 * k + r.waitMs == 1000 * (k + 1)
  {
    ContestedLeaves(n);
    ContestedLeaves(k);
    ContestedPrefix(n, k);
    Round(k);
    TwoCalls(Contested(k), Call(1000 * k, 1.0));
    hide Script, Stored, Contested, Calls;
  }

  lemma ContestedPrefix(n: nat, k: nat)
    requires k < n
    ensures |Contested(n)| == 2 * n && Contested(n)[2 * k + 1] == Call(1000 * k, 1.0)
    ensures Contested(n)[..2 * k + 1] == Contested(k) + [Call(1000 * k, 1.0)]
  {
  }
}
