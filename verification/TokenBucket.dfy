/** The token bucket (crawler/ratelimit/token_bucket.lua) over real numbers and whole milliseconds. */
module TokenBucket {
  import opened Reals
  import opened Wrappers

  /** The stored hash: tokens left and the time of the last call. */
  datatype Bucket = Bucket(tokens: real, ts: int)

  datatype Reply = Reply(allowed: bool, waitMs: int, bucket: Bucket)

  function Min(x: real, y: real): real {
    if x <= y then x else y
  }

  function Max(x: int, y: int): int {
    if x >= y then x else y
  }

  function Ceil(x: real): (n: int)
    ensures (n - 1) as real < x <= n as real
  {
    -((-x).Floor)
  }

  /** Tokens earned in `ms` milliseconds. */
  function Earned(rate: real, ms: int): real {
    ms as real / 1000.0 * rate
  }

  function Refill(capacity: real, rate: real, now: int, b: Bucket): real {
    Min(capacity, b.tokens + Earned(rate, Max(0, now - b.ts)))
  }

  /** The script. `None` is a key that does not exist, or has expired. */
  function Script(capacity: real, rate: real, now: int, requested: real, stored: Option<Bucket>): Reply
    requires rate > 0.0
  {
    var b := match stored case None => Bucket(capacity, now) case Some(b) => b;
    var tokens := Refill(capacity, rate, now, b);
    if tokens >= requested then Reply(true, 0, Bucket(tokens - requested, now))
    else Reply(false, Ceil((requested - tokens) / rate * 1000.0), Bucket(tokens, now))
  }

  // ---------------------------------------------------------------- arithmetic

  lemma EarnedAdds(rate: real, a: int, b: int)
    ensures Earned(rate, a + b) == Earned(rate, a) + Earned(rate, b)
  {
    var x, y := a as real / 1000.0, b as real / 1000.0;
    assert (a + b) as real / 1000.0 == x + y;
    assert (x + y) * rate == x * rate + y * rate;
  }

  lemma EarnedMonotone(rate: real, a: int, b: int)
    requires rate >= 0.0 && a <= b
    ensures Earned(rate, a) <= Earned(rate, b)
    ensures a >= 0 ==> Earned(rate, a) >= 0.0
  {
    EarnedAdds(rate, a, b - a);
    ProductNonNegative((b - a) as real / 1000.0, rate);
    if a >= 0 {
      ProductNonNegative(a as real / 1000.0, rate);
    }
  }

  /** What time does to a bucket that is not overfull: nothing when the clock stands still or steps back,
      otherwise `rate` tokens a second up to the capacity. */
  lemma RefillIs(capacity: real, rate: real, now: int, b: Bucket)
    requires rate > 0.0 && b.tokens <= capacity
    ensures now <= b.ts ==> Refill(capacity, rate, now, b) == b.tokens
    ensures now > b.ts ==>
              var earned := (now - b.ts) as real * rate / 1000.0;
              Refill(capacity, rate, now, b) == if b.tokens + earned <= capacity then b.tokens + earned else capacity
  {
    var ms := (now - b.ts) as real;
    assert ms / 1000.0 * rate == ms * rate / 1000.0;
  }

  /** One call on whatever it finds: a new key is a full bucket; the request is granted when there are enough
      tokens and then paid, a refusal takes nothing, and the time of the call is kept. */
  lemma ScriptPays(capacity: real, rate: real, now: int, requested: real, stored: Option<Bucket>)
    requires rate > 0.0
    ensures var there := if stored.Some? then Refill(capacity, rate, now, stored.value) else capacity;
            var r := Script(capacity, rate, now, requested, stored);
            && (r.allowed <==> there >= requested) && r.bucket.ts == now
            && r.bucket.tokens == (if r.allowed then there - requested else there)
            && (r.allowed ==> r.waitMs == 0)
  {
  }

  // ---------------------------------------------------------------- waiting

  /** Two consecutive refills are one. */
  lemma RefillComposes(capacity: real, rate: real, b: Bucket, t1: int, t2: int)
    requires rate > 0.0 && b.ts <= t1 <= t2
    ensures Refill(capacity, rate, t2, Bucket(Refill(capacity, rate, t1, b), t1)) == Refill(capacity, rate, t2, b)
  {
    EarnedAdds(rate, t1 - b.ts, t2 - t1);
    EarnedMonotone(rate, 0, t2 - t1);
  }

  /** `ms` milliseconds earn a deficit exactly when they are at least `deficit / rate` seconds. */
  lemma EarnsDeficit(rate: real, deficit: real, ms: int)
    requires rate > 0.0
    ensures Earned(rate, ms) >= deficit <==> ms as real >= deficit / rate * 1000.0
  {
    var s := ms as real / 1000.0;
    var need := deficit / rate;
    assert need * rate == deficit;
    if s >= need {
      ProductNonNegative(s - need, rate);
      assert (s - need) * rate == s * rate - need * rate;
    } else {
      ProductPositive(need - s, rate);
      assert (need - s) * rate == need * rate - s * rate;
    }
  }

  /** After a refusal an undisturbed retry `k` milliseconds later is granted exactly when `k` has reached
      the announced wait, provided that the bucket can ever hold the request. */
  lemma WaitIsExact(capacity: real, rate: real, now: int, requested: real, stored: Option<Bucket>, k: nat)
    requires rate > 0.0 && !Script(capacity, rate, now, requested, stored).allowed
    ensures var r := Script(capacity, rate, now, requested, stored);
            r.waitMs >= 1 &&
            (Script(capacity, rate, now + k, requested, Some(r.bucket)).allowed <==>
                k >= r.waitMs && capacity >= requested)
  {
    var r := Script(capacity, rate, now, requested, stored);
    var deficit := requested - r.bucket.tokens;
    EarnsDeficit(rate, deficit, k);
    EarnsDeficit(rate, deficit, 0);
    assert Earned(rate, 0) == 0.0;
  }

  /** Polling early loses nothing: every refusal on the way announces the same deadline. */
  lemma DeadlineStands(capacity: real, rate: real, now: int, later: int, requested: real, stored: Option<Bucket>)
    requires rate > 0.0 && now <= later && capacity >= requested
    requires !Script(capacity, rate, now, requested, stored).allowed
    requires !Script(capacity, rate, later, requested,
             Some(Script(capacity, rate, now, requested, stored).bucket)).allowed
    ensures var r := Script(capacity, rate, now, requested, stored);
            later + Script(capacity, rate, later, requested, Some(r.bucket)).waitMs == now + r.waitMs
  {
    var r := Script(capacity, rate, now, requested, stored);
    var r' := Script(capacity, rate, later, requested, Some(r.bucket));
    var d := later - now;
    assert r'.bucket.tokens == r.bucket.tokens + Earned(rate, d);
    DeficitShrinks(rate, requested - r.bucket.tokens, d);
  }

  lemma Quotient(x: real, rate: real)
    requires rate > 0.0
    ensures x * rate / rate == x
  {
  }

  /** Time that passes comes off the wait one for one. */
  lemma DeficitShrinks(rate: real, deficit: real, ms: int)
    requires rate > 0.0
    ensures (deficit - Earned(rate, ms)) / rate * 1000.0 == deficit / rate * 1000.0 - ms as real
  {
    var q := deficit / rate;
    var e := ms as real / 1000.0;
    assert q * rate == deficit;
    assert (q - e) * rate == q * rate - e * rate;
    Quotient(q - e, rate);
  }

  /** Expiry is harmless: a key idle for its time to live is full again anyway. It is harmless for
      every bucket exactly when the time to live earns a whole capacity. */
  ghost predicate ExpiryHarmless(capacity: real, rate: real, ttlMs: nat)
    requires rate > 0.0
  {
    forall b: Bucket, now, requested ::
      0.0 <= b.tokens <= capacity && now >= b.ts + ttlMs ==>
      Script(capacity, rate, now, requested, None) == Script(capacity, rate, now, requested, Some(b))
  }

  lemma ExpiryHarmlessIff(capacity: real, rate: real, ttlMs: nat)
    requires rate > 0.0 && capacity >= 0.0
    ensures ExpiryHarmless(capacity, rate, ttlMs) <==> Earned(rate, ttlMs) >= capacity
  {
    if Earned(rate, ttlMs) >= capacity {
      forall b: Bucket, now, requested | 0.0 <= b.tokens <= capacity && now >= b.ts + ttlMs
        ensures Script(capacity, rate, now, requested, None) == Script(capacity, rate, now, requested, Some(b))
      {
        EarnedMonotone(rate, ttlMs, now - b.ts);
        FullBucket(capacity, rate, now, b);
      }
    } else {
      var b := Bucket(0.0, 0);
      assert Refill(capacity, rate, ttlMs, b) < capacity;
      assert Refill(capacity, rate, ttlMs, Bucket(capacity, ttlMs)) == capacity by {
        assert Earned(rate, 0) == 0.0;
      }
      assert Script(capacity, rate, ttlMs, capacity, None).allowed;
      assert !Script(capacity, rate, ttlMs, capacity, Some(b)).allowed;
    }
  }

  lemma FullBucket(capacity: real, rate: real, now: int, b: Bucket)
    requires rate > 0.0 && b.tokens >= 0.0 && Earned(rate, Max(0, now - b.ts)) >= capacity
    ensures Refill(capacity, rate, now, b) == capacity
    ensures Refill(capacity, rate, now, Bucket(capacity, now)) == capacity
  {
    assert Earned(rate, 0) == 0.0;
  }

  // ---------------------------------------------------------------- runs on one bucket

  /** One call of the script for one token. */
  datatype Call = Call(now: int, rate: real)

  ghost predicate Calls(calls: seq<Call>) {
    forall l :: 0 <= l < |calls| ==> calls[l].rate > 0.0
  }

  /** What is stored after the calls. */
  function Stored(capacity: real, start: Option<Bucket>, calls: seq<Call>): Option<Bucket>
    requires Calls(calls)
  {
    if calls == [] then start
    else
      var n := |calls| - 1;
      Some(Script(capacity, calls[n].rate, calls[n].now, 1.0, Stored(capacity, start, calls[..n])).bucket)
  }

  /** Was call `l` granted? */
  predicate Granted(capacity: real, start: Option<Bucket>, calls: seq<Call>, l: nat)
    requires Calls(calls) && l < |calls|
  {
    Script(capacity, calls[l].rate, calls[l].now, 1.0, Stored(capacity, start, calls[..l])).allowed
  }

  /** Grants among calls `i..j`, both included. */
  function Grants(capacity: real, start: Option<Bucket>, calls: seq<Call>, i: nat, j: nat): nat
    requires Calls(calls) && i <= j + 1 <= |calls|
    decreases j + 1 - i
  {
    if i > j then 0
    else (if Granted(capacity, start, calls, j) then 1 else 0)
         + (if j == 0 then 0 else Grants(capacity, start, calls, i, j - 1))
  }

  /** Tokens earned between calls `i` and `j`; a clock that steps back earns nothing. */
  function EarnedBetween(calls: seq<Call>, i: nat, j: nat): real
    requires i <= j < |calls|
    decreases j - i
  {
    if i == j then 0.0
    else EarnedBetween(calls, i, j - 1) + Earned(calls[j].rate, Max(0, calls[j].now - calls[j - 1].now))
  }

  ghost predicate Sound(capacity: real, b: Option<Bucket>) {
    b.Some? ==> 0.0 <= b.value.tokens <= capacity
  }

  lemma {:induction false} StoredSound(capacity: real, start: Option<Bucket>, calls: seq<Call>)
    requires Calls(calls) && capacity >= 0.0 && Sound(capacity, start)
    ensures Sound(capacity, Stored(capacity, start, calls))
    ensures calls != [] ==> Stored(capacity, start, calls).Some?
                            && Stored(capacity, start, calls).value.ts == calls[|calls| - 1].now
    decreases |calls|
  {
    if calls != [] {
      var n := |calls| - 1;
      StoredSound(capacity, start, calls[..n]);
      RefillSound(capacity, calls[n].rate, calls[n].now, Stored(capacity, start, calls[..n]));
    }
  }

  lemma RefillSound(capacity: real, rate: real, now: int, b: Option<Bucket>)
    requires rate > 0.0 && capacity >= 0.0 && Sound(capacity, b)
    ensures Sound(capacity, Some(Script(capacity, rate, now, 1.0, b).bucket))
  {
    if b.Some? {
      EarnedMonotone(rate, 0, Max(0, now - b.value.ts));
    } else {
      assert Earned(rate, 0) == 0.0;
    }
  }

  /** The bucket pays for every grant: grants plus what is left is at most a full bucket plus what was earned. */
  lemma {:induction false} GrantsArePaid(capacity: real, start: Option<Bucket>, calls: seq<Call>, i: nat, j: nat)
    requires Calls(calls) && capacity >= 0.0 && Sound(capacity, start) && i <= j < |calls|
    ensures Stored(capacity, start, calls[..j + 1]).Some?
    ensures Grants(capacity, start, calls, i, j) as real + Stored(capacity, start, calls[..j + 1]).value.tokens
         <= capacity + EarnedBetween(calls, i, j)
    decreases j - i
  {
    var before := Stored(capacity, start, calls[..j]);
    var r := Script(capacity, calls[j].rate, calls[j].now, 1.0, before);
    assert calls[..j + 1][..j] == calls[..j];
    assert Stored(capacity, start, calls[..j + 1]) == Some(r.bucket);
    StoredSound(capacity, start, calls[..j]);
    if i == j {
      NoGrants(capacity, start, calls, i);
    } else {
      GrantsArePaid(capacity, start, calls, i, j - 1);
      assert calls[..j][j - 1] == calls[j - 1];
      assert r.bucket.tokens + (if r.allowed then 1.0 else 0.0)
          <= before.value.tokens + Earned(calls[j].rate, Max(0, calls[j].now - calls[j - 1].now));
    }
  }

  lemma NoGrants(capacity: real, start: Option<Bucket>, calls: seq<Call>, i: nat)
    requires Calls(calls) && i < |calls|
    ensures Grants(capacity, start, calls, i, i) == if Granted(capacity, start, calls, i) then 1 else 0
  {
  }

  /** In any window of calls, with rates that change and clocks that step back, the grants are at most
      the capacity plus what was earned between the first and the last call. */
  lemma WindowBound(capacity: real, start: Option<Bucket>, calls: seq<Call>, i: nat, j: nat)
    requires Calls(calls) && capacity >= 0.0 && Sound(capacity, start) && i <= j < |calls|
    ensures Grants(capacity, start, calls, i, j) as real <= capacity + EarnedBetween(calls, i, j)
  {
    GrantsArePaid(capacity, start, calls, i, j);
    StoredSound(capacity, start, calls[..j + 1]);
  }

  lemma {:induction false} EarnedTelescopes(calls: seq<Call>, i: nat, j: nat, rate: real)
    requires i <= j < |calls|
    requires forall l :: 0 <= l < |calls| ==> calls[l].rate == rate
    requires forall l :: 0 < l < |calls| ==> calls[l - 1].now <= calls[l].now
    ensures EarnedBetween(calls, i, j) == Earned(rate, calls[j].now - calls[i].now)
    decreases j - i
  {
    if i < j {
      EarnedTelescopes(calls, i, j - 1, rate);
      EarnedAdds(rate, calls[j - 1].now - calls[i].now, calls[j].now - calls[j - 1].now);
    } else {
      assert Earned(rate, 0) == 0.0;
    }
  }

  lemma {:induction false} GrantsContain(capacity: real, start: Option<Bucket>, calls: seq<Call>, i: nat, j: nat,
                                         k: nat)
    requires Calls(calls) && i <= k <= j < |calls| && Granted(capacity, start, calls, k)
    ensures Grants(capacity, start, calls, i, j) >= 1
    ensures i < k && Granted(capacity, start, calls, i) ==> Grants(capacity, start, calls, i, j) >= 2
    decreases j - i
  {
    if k < j {
      GrantsContain(capacity, start, calls, i, j - 1, k);
    } else if i < k && Granted(capacity, start, calls, i) {
      GrantsContain(capacity, start, calls, i, j - 1, i);
    }
  }

  lemma PeriodInMs(rate: real)
    requires rate > 0.0
    ensures 1.0 / rate * 1000.0 == 1000.0 / rate
  {
  }

  /** With capacity one, a constant rate and a clock that does not step back, any two grants lie at
      least one refill period apart. */
  lemma GrantsAreSpaced(start: Option<Bucket>, calls: seq<Call>, i: nat, j: nat, rate: real)
    requires Calls(calls) && Sound(1.0, start) && i < j < |calls|
    requires forall l :: 0 <= l < |calls| ==> calls[l].rate == rate
    requires forall l :: 0 < l < |calls| ==> calls[l - 1].now <= calls[l].now
    requires Granted(1.0, start, calls, i) && Granted(1.0, start, calls, j)
    ensures (calls[j].now - calls[i].now) as real >= 1000.0 / rate
  {
    hide Grants, Granted, Earned, EarnedBetween, Sound;
    WindowBound(1.0, start, calls, i, j);
    GrantsContain(1.0, start, calls, i, j, j);
    PeriodInMs(rate);
    EarnedTelescopes(calls, i, j, rate);
    EarnsDeficit(rate, 1.0, calls[j].now - calls[i].now);
  }
}
