/** The local rate limiter (crawler/ratelimit/local.py): a locked loop over a bucket of its own, and the
    bounds on whole runs for any clock readings. */
module LocalLimiter {
  import opened Reals
  import opened Wrappers
  import T = TokenBucket

  /** Tokens left and the time of the last turn, in seconds. */
  datatype Level = Level(tokens: real, ts: real)

  /** One turn of the loop in `acquire`: the clock reading and the caller's rate. */
  datatype Turn = Turn(now: real, rate: real)

  function Min(x: real, y: real): real {
    if x <= y then x else y
  }

  /** Tokens earned in `time` seconds. */
  function Earned(rate: real, time: real): real {
    time * rate
  }

  lemma EarnedAdds(rate: real, a: real, b: real)
    ensures Earned(rate, a + b) == Earned(rate, a) + Earned(rate, b) && Earned(rate, 0.0) == 0.0
    ensures rate >= 0.0 && a >= 0.0 ==> Earned(rate, a) >= 0.0
  {
    if rate >= 0.0 && a >= 0.0 {
      ProductNonNegative(a, rate);
    }
  }

  function Refill(capacity: real, rate: real, now: real, b: Level): real {
    Min(capacity, b.tokens + Earned(rate, now - b.ts))
  }

  /** A host without an entry starts full. */
  function Tokens(capacity: real, stored: Option<Level>, turn: Turn): real {
    Refill(capacity, turn.rate, turn.now, if stored.Some? then stored.value else Level(capacity, turn.now))
  }

  /** A turn takes a token if there is one, and files what is left. */
  function AfterTurn(capacity: real, stored: Option<Level>, turn: Turn): Level {
    var tokens := Tokens(capacity, stored, turn);
    Level(if tokens >= 1.0 then tokens - 1.0 else tokens, turn.now)
  }

  /** The entry of a host after these turns. */
  function Stored(capacity: real, turns: seq<Turn>): Option<Level> {
    if turns == [] then None
    else Some(AfterTurn(capacity, Stored(capacity, turns[..|turns| - 1]), turns[|turns| - 1]))
  }

  predicate Granted(capacity: real, turns: seq<Turn>, l: nat)
    requires l < |turns|
  {
    Tokens(capacity, Stored(capacity, turns[..l]), turns[l]) >= 1.0
  }

  lemma OneMoreTurn(capacity: real, turns: seq<Turn>, turn: Turn)
    ensures Stored(capacity, turns + [turn]) == Some(AfterTurn(capacity, Stored(capacity, turns), turn))
    ensures Granted(capacity, turns + [turn], |turns|) <==> Tokens(capacity, Stored(capacity, turns), turn) >= 1.0
  {
    assert (turns + [turn])[..|turns|] == turns;
  }

  /** Grants among turns `i..j`, both included. */
  function Grants(capacity: real, turns: seq<Turn>, i: nat, j: nat): nat
    requires i <= j < |turns|
    decreases j - i
  {
    (if Granted(capacity, turns, j) then 1 else 0) + if i == j then 0 else Grants(capacity, turns, i, j - 1)
  }

  /** Tokens earned between turns `i` and `j`. */
  function EarnedBetween(turns: seq<Turn>, i: nat, j: nat): real
    requires i <= j < |turns|
    decreases j - i
  {
    if i == j then 0.0 else EarnedBetween(turns, i, j - 1) + Earned(turns[j].rate, turns[j].now - turns[j - 1].now)
  }

  lemma StoredAt(capacity: real, turns: seq<Turn>, j: nat)
    requires j < |turns|
    ensures Stored(capacity, turns[..j + 1]) == Some(AfterTurn(capacity, Stored(capacity, turns[..j]), turns[j]))
    ensures j > 0 ==> Stored(capacity, turns[..j]).Some? && Stored(capacity, turns[..j]).value.ts == turns[j - 1].now
  {
    assert turns[..j + 1][..j] == turns[..j];
  }

  /** The bucket pays for every grant, whatever the clock readings and the rates. */
  lemma {:induction false} GrantsArePaid(capacity: real, turns: seq<Turn>, i: nat, j: nat)
    requires i <= j < |turns|
    ensures Stored(capacity, turns[..j + 1]).Some?
    ensures Grants(capacity, turns, i, j) as real + Stored(capacity, turns[..j + 1]).value.tokens
         <= capacity + EarnedBetween(turns, i, j)
    decreases j - i
  {
    StoredAt(capacity, turns, j);
    EarnedAdds(turns[j].rate, 0.0, 0.0);
    hide Earned, Stored;
    if i < j {
      GrantsArePaid(capacity, turns, i, j - 1);
    }
  }

  /** A clock that does not step back, as `time.monotonic`, and rates as `acquire` lets them through. */
  ghost predicate Forward(turns: seq<Turn>) {
    && (forall l :: 0 <= l < |turns| ==> turns[l].rate > 0.0)
    && forall l :: 0 < l < |turns| ==> turns[l - 1].now <= turns[l].now
  }

  lemma {:induction false} TokensStayInRange(capacity: real, turns: seq<Turn>, j: nat)
    requires capacity >= 0.0 && Forward(turns) && j < |turns|
    ensures Stored(capacity, turns[..j + 1]).Some? && 0.0 <= Stored(capacity, turns[..j + 1]).value.tokens <= capacity
  {
    StoredAt(capacity, turns, j);
    hide Earned, Stored;
    if j > 0 {
      EarnedAdds(turns[j].rate, turns[j].now - turns[j - 1].now, 0.0);
      TokensStayInRange(capacity, turns, j - 1);
    } else {
      EarnedAdds(turns[0].rate, 0.0, 0.0);
    }
  }

  /** In any window of turns the grants are at most the capacity plus what was earned in it. */
  lemma WindowBound(capacity: real, turns: seq<Turn>, i: nat, j: nat)
    requires capacity >= 0.0 && Forward(turns) && i <= j < |turns|
    ensures Grants(capacity, turns, i, j) as real <= capacity + EarnedBetween(turns, i, j)
  {
    GrantsArePaid(capacity, turns, i, j);
    TokensStayInRange(capacity, turns, j);
  }

  lemma {:induction false} EarnedTelescopes(turns: seq<Turn>, i: nat, j: nat, rate: real)
    requires i <= j < |turns| && forall l :: i < l <= j ==> turns[l].rate == rate
    ensures EarnedBetween(turns, i, j) == Earned(rate, turns[j].now - turns[i].now)
    decreases j - i
  {
    if i < j {
      EarnedTelescopes(turns, i, j - 1, rate);
      EarnedAdds(rate, turns[j - 1].now - turns[i].now, turns[j].now - turns[j - 1].now);
    }
    EarnedAdds(rate, 0.0, 0.0);
    hide Earned;
  }

  lemma {:induction false} FirstGrantCounts(capacity: real, turns: seq<Turn>, i: nat, j: nat)
    requires i <= j < |turns| && Granted(capacity, turns, i)
    ensures Grants(capacity, turns, i, j) >= 1
    decreases j - i
  {
    if i < j {
      FirstGrantCounts(capacity, turns, i, j - 1);
    }
  }

  /** With capacity one and one rate in between, two grants lie at least a refill period apart, whatever
      the clock does. */
  lemma GrantsAreSpaced(turns: seq<Turn>, i: nat, j: nat, rate: real)
    requires i < j < |turns| && rate > 0.0 && forall l :: i < l <= j ==> turns[l].rate == rate
    requires Granted(1.0, turns, i) && Granted(1.0, turns, j)
    ensures turns[j].now - turns[i].now >= 1.0 / rate
  {
    GrantsArePaid(1.0, turns, i, j);
    FirstGrantCounts(1.0, turns, i, j - 1);
    StoredAt(1.0, turns, j);
    EarnedTelescopes(turns, i, j, rate);
    hide Earned, Stored, EarnedBetween, Refill;
    PeriodReached(turns[j].now - turns[i].now, rate);
  }

  lemma PeriodReached(time: real, rate: real)
    requires rate > 0.0 && Earned(rate, time) >= 1.0
    ensures time >= 1.0 / rate
  {
    var period := 1.0 / rate;
    assert period * rate == 1.0;
    assert (period - time) * rate == 1.0 - Earned(rate, time);
    if time < period {
      ProductPositive(period - time, rate);
    }
  }
  // ---------------------------------------------------------------- the limiter

  /** How much longer than asked the n-th sleep takes. */
  type Oversleep = imap<nat, real>

  ghost predicate NeverEarly(lag: Oversleep) {
    forall n: nat :: n in lag && lag[n] >= 0.0
  }

  /** The time that earns what is missing to one token. */
  function WaitFor(rate: real, tokens: real): real
    requires rate > 0.0
  {
    (1.0 - tokens) / rate
  }

  lemma SleepEarnsToken(capacity: real, rate: real, start: real, tokens: real, late: real)
    requires rate > 0.0 && capacity >= 1.0 && late >= 0.0
    ensures Refill(capacity, rate, start + WaitFor(rate, tokens) + late, Level(tokens, start)) >= 1.0
  {
    var wait := WaitFor(rate, tokens);
    assert wait * rate == 1.0 - tokens;
    ProductNonNegative(late, rate);
    assert (start + wait + late) - start == wait + late;
    assert (wait + late) * rate == wait * rate + late * rate;
  }

  type Turns = map<string, seq<Turn>>

  ghost function TurnsAt(turns: Turns, host: string): seq<Turn> {
    if host in turns then turns[host] else []
  }

  function EntryAt(state: map<string, Level>, host: string): Option<Level> {
    if host in state then Some(state[host]) else None
  }

  /** Each entry is what the host's turns have left. */
  ghost predicate Tracks(capacity: real, state: map<string, Level>, turns: Turns) {
    forall host :: EntryAt(state, host) == Stored(capacity, TurnsAt(turns, host))
  }

  lemma TrackTurn(capacity: real, state: map<string, Level>, turns: Turns, host: string, turn: Turn)
    requires Tracks(capacity, state, turns)
    ensures Tracks(capacity, state[host := AfterTurn(capacity, EntryAt(state, host), turn)],
                   turns[host := TurnsAt(turns, host) + [turn]])
    ensures var all := TurnsAt(turns, host) + [turn];
            Granted(capacity, all, |all| - 1) <==> Tokens(capacity, EntryAt(state, host), turn) >= 1.0
  {
    OneMoreTurn(capacity, TurnsAt(turns, host), turn);
    var state', turns' :=
        state[host := AfterTurn(capacity, EntryAt(state, host), turn)], turns[host := TurnsAt(turns, host) + [turn]];
    hide Stored, AfterTurn;
    forall h
      ensures EntryAt(state', h) == Stored(capacity, TurnsAt(turns', h))
    {
      assert EntryAt(state, h) == Stored(capacity, TurnsAt(turns, h));
    }
  }

  /** A host's first turn finds a full bucket. */
  lemma FirstTurn(capacity: real, turn: Turn)
    ensures Granted(capacity, [turn], 0) <==> capacity >= 1.0
    ensures Stored(capacity, [turn]) == Some(Level(if capacity >= 1.0 then capacity - 1.0 else capacity, turn.now))
  {
  }

  /** A bucket earns `rate` tokens a second, up to the capacity. */
  lemma RefillIs(capacity: real, rate: real, now: real, b: Level)
    ensures var there := b.tokens + (now - b.ts) * rate;
            Refill(capacity, rate, now, b) == if there <= capacity then there else capacity
  {
  }

  /** Nothing else is earned or lost: a turn pays one token if there is one, and is granted exactly then. */
  lemma TurnPays(capacity: real, turns: seq<Turn>, turn: Turn)
    requires turns != []
    ensures Stored(capacity, turns).Some?
    ensures var there := Refill(capacity, turn.rate, turn.now, Stored(capacity, turns).value);
            && (Granted(capacity, turns + [turn], |turns|) <==> there >= 1.0)
            && Stored(capacity, turns + [turn]) == Some(Level(if there >= 1.0 then there - 1.0 else there, turn.now))
  {
    OneMoreTurn(capacity, turns, turn);
    hide Refill;
  }

  /** The sleep is no longer than it must be: it ends when the token has come, not later. */
  lemma WaitIsLeast(capacity: real, rate: real, start: real, tokens: real, time: real)
    requires rate > 0.0 && capacity >= 1.0
    ensures Refill(capacity, rate, start + time, Level(tokens, start)) >= 1.0 <==> time >= WaitFor(rate, tokens)
  {
    var wait := WaitFor(rate, tokens);
    assert wait * rate == 1.0 - tokens;
    assert (time - wait) * rate == time * rate - wait * rate;
    if time >= wait {
      ProductNonNegative(time - wait, rate);
    } else {
      ProductPositive(wait - time, rate);
      assert (wait - time) * rate == wait * rate - time * rate;
    }
  }

  class LocalRateLimiter {
    const capacity: real
    var state: map<string, Level>
    /** All turns of the loop so far, by host. */
    ghost var turns: map<string, seq<Turn>>

    /** The bounds on turns hold for what the limiter has done. */
    ghost predicate Valid()
      reads this
    {
      Tracks(capacity, state, turns)
    }

    constructor (capacity: real)
      ensures Valid() && this.capacity == capacity && state == map[] && turns == map[]
    {
      this.capacity := capacity;
      state, turns := map[], map[];
    }

    /** The body of the loop up to the sleep. */
    method TakeTurn(host: string, rate: real, now: real) returns (tokens: real)
      requires Valid()
      modifies this
      ensures Valid() && tokens == Tokens(capacity, old(EntryAt(state, host)), Turn(now, rate))
      ensures state == old(state)[host := AfterTurn(capacity, old(EntryAt(state, host)), Turn(now, rate))]
      ensures turns == old(turns)[host := old(TurnsAt(turns, host)) + [Turn(now, rate)]]
      ensures Granted(capacity, turns[host], |turns[host]| - 1) <==> tokens >= 1.0
    {
      TrackTurn(capacity, state, turns, host, Turn(now, rate));
      tokens := Tokens(capacity, EntryAt(state, host), Turn(now, rate));
      turns := turns[host := TurnsAt(turns, host) + [Turn(now, rate)]];
      hide Tracks, Stored, Tokens, Granted;
      if tokens >= 1.0 {
        state := state[host := Level(tokens - 1.0, now)];
      } else {
        state := state[host := Level(tokens, now)];
      }
    }

    /** The loop inside the host's lock, with the clock readings as inputs. It sleeps at most once: not
        at all when a token is there, otherwise for the time that earns one. Below a capacity of one the
        source leaves the loop only when the rate is not positive. */
    method Acquire(host: string, rate: real, start: real, lag: Oversleep) returns (granted: real, sleeps: nat)
      requires Valid() && (rate > 0.0 ==> capacity >= 1.0) && NeverEarly(lag)
      modifies this
      ensures Valid()
      ensures rate <= 0.0 ==> state == old(state) && turns == old(turns) && sleeps == 0 && granted == start
      ensures rate > 0.0 ==>
              Acquired(capacity, rate, start, lag, old(state), old(turns), host, granted, sleeps, state, turns)
    {
      sleeps, granted := 0, start;
      if rate <= 0.0 {
        return;
      }
      ghost var state0, turns0 := state, turns;
      hide *;
      while true
        invariant Valid()
        invariant Looping(capacity, rate, start, lag, state0, turns0, host, granted, sleeps, state, turns)
        decreases 1 - sleeps
      {
        LoopTurn(capacity, rate, start, lag, state0, turns0, host, granted, sleeps, state, turns);
        var tokens := TakeTurn(host, rate, granted);
        if tokens >= 1.0 {
          return;
        }
        granted := granted + WaitFor(rate, tokens) + lag[sleeps];
        sleeps := sleeps + 1;
      }
    }
  }

  /** One call of `acquire`: a granted turn, or a refused one and, once it has slept, a granted one. */
  ghost predicate Acquired(capacity: real, rate: real, start: real, lag: Oversleep, state: map<string, Level>,
                           turns: Turns,
                           host: string, granted: real, sleeps: nat, state': map<string, Level>, turns': Turns)
    requires rate > 0.0
  {
    var before, stored, turn := TurnsAt(turns, host), EntryAt(state, host), Turn(start, rate);
    var first := Tokens(capacity, stored, turn);
    if first >= 1.0 then
      && sleeps == 0 && granted == start
      && state' == state[host := Level(first - 1.0, start)] && turns' == turns[host := before + [turn]]
    else
      && sleeps == 1 && 0 in lag && granted == start + WaitFor(rate, first) + lag[0]
      && state' == state[host := Level(Refill(capacity, rate, granted, Level(first, start)) - 1.0, granted)]
      && turns' == turns[host := before + [turn] + [Turn(granted, rate)]]
      && Granted(capacity, turns'[host], |before| + 1)
  }

  /** What the loop keeps: nothing has happened yet, or one refused turn. */
  ghost predicate Looping(capacity: real, rate: real, start: real, lag: Oversleep, state: map<string, Level>,
                          turns: Turns,
                          host: string, now: real, sleeps: nat, state': map<string, Level>, turns': Turns)
    requires rate > 0.0
  {
    if sleeps == 0 then now == start && state' == state && turns' == turns
    else
      var turn := Turn(start, rate);
      var first := Tokens(capacity, EntryAt(state, host), turn);
      && sleeps == 1 && first < 1.0 && 0 in lag && now == start + WaitFor(rate, first) + lag[0]
      && state' == state[host := Level(first, start)] && turns' == turns[host := TurnsAt(turns, host) + [turn]]
  }

  lemma LoopTurn(capacity: real, rate: real, start: real, lag: Oversleep, state: map<string, Level>, turns: Turns,
                 host: string, now: real, sleeps: nat, state': map<string, Level>, turns': Turns)
    requires rate > 0.0 && capacity >= 1.0 && NeverEarly(lag) && Tracks(capacity, state', turns')
    requires Looping(capacity, rate, start, lag, state, turns, host, now, sleeps, state', turns')
    ensures sleeps <= 1 && sleeps in lag
    ensures var stored, turn := EntryAt(state', host), Turn(now, rate);
            var tokens := Tokens(capacity, stored, turn);
            var stateNext := state'[host := AfterTurn(capacity, stored, turn)];
            var turnsNext := turns'[host := TurnsAt(turns', host) + [turn]];
            if tokens >= 1.0 then
              Acquired(capacity, rate, start, lag, state, turns, host, now, sleeps, stateNext, turnsNext)
            else
              && sleeps == 0
              && Looping(capacity, rate, start, lag, state, turns, host, now + WaitFor(rate, tokens) + lag[sleeps], 1,
                         stateNext, turnsNext)
  {
    TrackTurn(capacity, state', turns', host, Turn(now, rate));
    if sleeps == 1 {
      SleepEarnsToken(capacity, rate, start, Tokens(capacity, EntryAt(state, host), Turn(start, rate)), lag[0]);
    }
    hide Stored, WaitFor, Refill, Tracks;
  }

  /** A bucket smaller than one token never grants: the loop of `acquire` would not end. */
  lemma SmallBucketNeverGrants(capacity: real, turns: seq<Turn>, l: nat)
    requires capacity < 1.0 && l < |turns|
    ensures !Granted(capacity, turns, l)
  {
  }

  /** On whole milliseconds and a clock that does not step back the refill is the script's. */
  lemma LocalIsScript(capacity: real, rate: real, now: int, b: T.Bucket)
    requires b.ts <= now
    ensures Refill(capacity, rate, now as real / 1000.0, Level(b.tokens, b.ts as real / 1000.0))
         == T.Refill(capacity, rate, now, b)
  {
    assert now as real / 1000.0 - b.ts as real / 1000.0 == (now - b.ts) as real / 1000.0;
  }
}
