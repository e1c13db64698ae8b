/** The per-host circuit breaker (crawler/resilience/circuit_breaker.py). */
module CircuitBreaker {
  import opened Reals

  datatype Circuit = Closed | Open | HalfOpen

  datatype HostState = HostState(failures: nat, openedAt: real, state: Circuit)

  const FRESH := HostState(0, 0.0, Closed)

  datatype Outcome = Succeeded | Failed

  // ---------------------------------------------------------------- one host

  function Allows(st: HostState, now: real, reset: real): bool {
    st.state == Open ==> now - st.openedAt >= reset
  }

  function AfterAllow(st: HostState, now: real, reset: real): HostState {
    if st.state == Open && now - st.openedAt >= reset then st.(state := HalfOpen) else st
  }

  function AfterSuccess(st: HostState): HostState {
    st.(failures := 0, state := Closed)
  }

  function AfterFailure(st: HostState, now: real, threshold: nat): HostState {
    if st.state == HalfOpen then st.(openedAt := now, state := Open)
    else
      var failures := st.failures + 1;
      if failures >= threshold && st.state == Closed then HostState(failures, now, Open)
      else st.(failures := failures)
  }

  // ---------------------------------------------------------------- the breaker

  type History = seq<(string, Outcome)>

  /** Failures of the host recorded since its last success. */
  function FailureRun(history: History, host: string): nat {
    if history == [] then 0
    else
      var (h, outcome) := history[|history| - 1];
      var before := FailureRun(history[..|history| - 1], host);
      if h != host then before else if outcome == Failed then before + 1 else 0
  }

  lemma RunGrows(history: History, host: string, outcome: Outcome, other: string)
    ensures FailureRun(history + [(host, outcome)], other)
         == if other != host then FailureRun(history, other)
            else if outcome == Failed then FailureRun(history, host) + 1 else 0
  {
    assert (history + [(host, outcome)])[..|history|] == history;
  }

  /** The run counts the failures of the host that no later success of the host follows. */
  lemma {:induction false} RunIsUnbrokenFailures(history: History, host: string)
    ensures FailureRun(history, host) == |Unbroken(history, host)|
    decreases |history|
  {
    if history != [] {
      var n := |history| - 1;
      RunIsUnbrokenFailures(history[..n], host);
      UnbrokenSnoc(history, host);
    } else {
      assert Unbroken(history, host) == {};
    }
  }

  ghost function Unbroken(history: History, host: string): set<nat> {
    set k: nat | k < |history| && history[k] == (host, Failed) && !Broken(history, host, k)
  }

  ghost predicate Broken(history: History, host: string, k: nat) {
    exists i :: k < i < |history| && history[i] == (host, Succeeded)
  }

  lemma UnbrokenSnoc(history: History, host: string)
    requires history != []
    ensures var n := |history| - 1;
            Unbroken(history, host) == if history[n] == (host, Succeeded) then {}
                                       else if history[n] == (host, Failed) then Unbroken(history[..n], host) + {n}
                                       else Unbroken(history[..n], host)
  {
    var n := |history| - 1;
    forall k: nat | k < n
      ensures Broken(history, host, k) <==> Broken(history[..n], host, k) || history[n] == (host, Succeeded)
    {
      if i :| k < i < |history| && history[i] == (host, Succeeded) {
        assert i < n ==> history[..n][i] == history[i];
      }
    }
    assert !Broken(history, host, n);
    hide Broken;
  }

  /** When a host that has just failed is asked again at `t`: an open host as if nothing had happened, a
      half-open one and one that reaches the threshold after a whole cooldown, any other one at once. */
  lemma AskedAfterFailure(st: HostState, now: real, threshold: nat, reset: real, t: real)
    ensures var after := AfterFailure(st, now, threshold);
            match st.state
            case Open => after.state == Open && (Allows(after, t, reset) <==> t >= st.openedAt + reset)
            case HalfOpen => after.state == Open && (Allows(after, t, reset) <==> t >= now + reset)
            case Closed =>
              if st.failures + 1 >= threshold
              then after.state == Open && (Allows(after, t, reset) <==> t >= now + reset)
              else after.state == Closed && after.failures == st.failures + 1 && Allows(after, t, reset)
  {
  }

  /** After a success a host is asked at any time. */
  lemma AskedAfterSuccess(st: HostState, reset: real, t: real)
    ensures AfterSuccess(st).state == Closed && AfterSuccess(st).failures == 0 && Allows(AfterSuccess(st), t, reset)
  {
  }

  function OpenHosts(hosts: map<string, HostState>): set<string> {
    set h | h in hosts && hosts[h].state == Open
  }

  /** Changing one host changes membership of that host only. */
  lemma OpenHostsUpdate(hosts: map<string, HostState>, host: string, st: HostState)
    ensures OpenHosts(hosts[host := st])
         == if st.state == Open then OpenHosts(hosts) + {host} else OpenHosts(hosts) - {host}
  {
  }

  lemma FewerOpen(open: set<string>, host: string)
    ensures |open - {host}| <= |open|
    ensures host in open ==> |open + {host}| == |open|
  {
    if host in open {
      assert open + {host} == open;
      assert |open - {host}| == |open| - 1;
    } else {
      assert open - {host} == open;
    }
  }

  function Lookup(hosts: map<string, HostState>, host: string): HostState {
    if host in hosts then hosts[host] else FRESH
  }

  /** A host is closed exactly while its run of failures is below the threshold, and then counts that run. */
  ghost predicate Tracks(hosts: map<string, HostState>, history: History, threshold: nat) {
    && (forall host :: Lookup(hosts, host).state == Closed <==> FailureRun(history, host) < threshold)
    && (forall host :: Lookup(hosts, host).state == Closed ==>
        Lookup(hosts, host).failures == FailureRun(history, host))
  }

  /** What recording an outcome does to the host. */
  function AfterOutcome(st: HostState, outcome: Outcome, now: real, threshold: nat): HostState {
    if outcome == Failed then AfterFailure(st, now, threshold) else AfterSuccess(st)
  }

  lemma TracksOutcome(hosts: map<string, HostState>, history: History, threshold: nat,
                      host: string, outcome: Outcome, now: real)
    requires threshold > 0 && Tracks(hosts, history, threshold)
    ensures var st := AfterOutcome(Lookup(hosts, host), outcome, now, threshold);
            Tracks(hosts[host := st], history + [(host, outcome)], threshold)
  {
    forall h {
      RunGrows(history, host, outcome, h);
    }
    hide FailureRun;
  }

  lemma TracksAllow(hosts: map<string, HostState>, history: History, threshold: nat, host: string, now: real,
                    reset: real)
    requires Tracks(hosts, history, threshold)
    ensures Tracks(hosts[host := AfterAllow(Lookup(hosts, host), now, reset)], history, threshold)
  {
    hide FailureRun;
  }

  /** The number of open hosts grows only when the changed host opens. */
  lemma OpenCountStep(hosts: map<string, HostState>, host: string, st: HostState)
    requires st.state == Open ==> Lookup(hosts, host).state == Open
    ensures |OpenHosts(hosts[host := st])| <= |OpenHosts(hosts)|
  {
    OpenHostsUpdate(hosts, host, st);
    FewerOpen(OpenHosts(hosts), host);
    assert st.state == Open ==> host in OpenHosts(hosts);
  }

  class Breaker {
    const threshold: nat
    const reset: real
    var hosts: map<string, HostState>
    /** The value published by `metrics.CIRCUIT_STATE.set`. */
    var gauge: int
    ghost var history: History

    function Of(host: string): HostState
      reads this
    {
      Lookup(hosts, host)
    }

    /** `open_count` */
    function OpenCount(): nat
      reads this
    {
      |OpenHosts(hosts)|
    }

    /** The states follow the history, and the gauge never shows too few open hosts. */
    ghost predicate Valid()
      reads this
    {
      threshold > 0 && Tracks(hosts, history, threshold) && gauge >= OpenCount()
    }

    /** The source raises for a non-positive threshold. */
    constructor (threshold: nat, reset: real)
      requires threshold > 0
      ensures Valid() && this.threshold == threshold && this.reset == reset
      ensures history == [] && hosts == map[] && gauge == 0
    {
      this.threshold, this.reset := threshold, reset;
      hosts, gauge, history := map[], 0, [];
    }

    /** `_get` files a fresh state for an unknown host; the rest is a transition of that host alone. */
    method Allow(host: string, now: real) returns (ok: bool)
      requires Valid()
      modifies this
      ensures Valid() && history == old(history) && gauge == old(gauge)
      ensures ok == Allows(old(Of(host)), now, reset)
      ensures ok <==> old(Of(host)).state == Open ==> now >= old(Of(host)).openedAt + reset
      ensures hosts == old(hosts)[host := AfterAllow(old(Of(host)), now, reset)]
    {
      var st := Of(host);
      TracksAllow(hosts, history, threshold, host, now, reset);
      OpenCountStep(hosts, host, AfterAllow(st, now, reset));
      hide Tracks, OpenHosts;
      if st.state == Open {
        if now - st.openedAt >= reset {
          hosts := hosts[host := st.(state := HalfOpen)];
          return true;
        }
        hosts := hosts[host := st];
        return false;
      }
      hosts := hosts[host := st];
      return true;
    }

    method RecordSuccess(host: string)
      requires Valid()
      modifies this
      ensures Valid() && history == old(history) + [(host, Succeeded)]
      ensures hosts == old(hosts)[host := AfterSuccess(old(Of(host)))]
      ensures old(Of(host)).state != Closed ==> gauge == OpenCount()
    {
      var st := Of(host);
      var wasOpen := st.state != Closed;
      TracksOutcome(hosts, history, threshold, host, Succeeded, 0.0);
      OpenCountStep(hosts, host, AfterSuccess(st));
      hide Tracks, OpenHosts;
      hosts := hosts[host := st.(failures := 0, state := Closed)];
      history := history + [(host, Succeeded)];
      if wasOpen {
        RefreshGauge();
      }
    }

    method RecordFailure(host: string, now: real)
      requires Valid()
      modifies this
      ensures Valid() && history == old(history) + [(host, Failed)]
      ensures hosts == old(hosts)[host := AfterFailure(old(Of(host)), now, threshold)]
      ensures Of(host).state == Open && old(Of(host)).state != Open ==> gauge == OpenCount()
    {
      var st := Of(host);
      TracksOutcome(hosts, history, threshold, host, Failed, now);
      if st.state != HalfOpen && !(st.failures + 1 >= threshold && st.state == Closed) {
        OpenCountStep(hosts, host, st.(failures := st.failures + 1));
      }
      hide Tracks, OpenHosts;
      history := history + [(host, Failed)];
      if st.state == HalfOpen {
        hosts := hosts[host := st.(openedAt := now, state := Open)];
        RefreshGauge();
        return;
      }
      st := st.(failures := st.failures + 1);
      if st.failures >= threshold && st.state == Closed {
        hosts := hosts[host := st.(openedAt := now, state := Open)];
        RefreshGauge();
        return;
      }
      hosts := hosts[host := st];
    }

    method RefreshGauge()
      modifies this`gauge
      ensures gauge == OpenCount() == |set h | h in hosts && hosts[h].state == Open|
    {
      gauge := OpenCount();
    }
  }

  // ---------------------------------------------------------------- half-open

  /** How many of several `allow` calls in a row are admitted. */
  function Admitted(st: HostState, times: seq<real>, reset: real): nat
    decreases |times|
  {
    if times == [] then 0
    else (if Allows(st, times[0], reset) then 1 else 0) + Admitted(AfterAllow(st, times[0], reset), times[1..], reset)
  }

  lemma {:induction false} HalfOpenAdmitsAll(st: HostState, times: seq<real>, reset: real)
    requires st.state == HalfOpen
    ensures Admitted(st, times, reset) == |times|
    decreases |times|
  {
    if times != [] {
      HalfOpenAdmitsAll(st, times[1..], reset);
    }
  }

  // ---------------------------------------------------------------- a dead host

  /** One fetch attempt after another: asked at `start`, failed at `end` if it was allowed. */
  datatype Attempt = Attempt(start: real, end: real)

  ghost predicate OneAfterAnother(attempts: seq<Attempt>) {
    && (forall i :: 0 <= i < |attempts| ==> attempts[i].start <= attempts[i].end)
    && forall i :: 0 < i < |attempts| ==> attempts[i - 1].end <= attempts[i].start
  }

  datatype Tally = Tally(st: HostState, allowed: nat)

  function Hammer(threshold: nat, reset: real, attempts: seq<Attempt>): Tally {
    if attempts == [] then Tally(FRESH, 0)
    else
      var t := Hammer(threshold, reset, attempts[..|attempts| - 1]);
      var a := attempts[|attempts| - 1];
      var st := AfterAllow(t.st, a.start, reset);
      if Allows(t.st, a.start, reset) then Tally(AfterFailure(st, a.end, threshold), t.allowed + 1)
      else Tally(st, t.allowed)
  }

  /** Time that `n` fetches beyond the threshold take. */
  function Cooldowns(n: int, reset: real): real {
    n as real * reset
  }

  lemma CooldownsAdd(n: int, reset: real)
    ensures Cooldowns(n + 1, reset) == Cooldowns(n, reset) + reset
    ensures Cooldowns(0, reset) == 0.0
  {
  }

  lemma {:induction false} HammerInv(threshold: nat, reset: real, attempts: seq<Attempt>)
    requires threshold > 0 && reset >= 0.0 && OneAfterAnother(attempts) && attempts != []
    ensures var t := Hammer(threshold, reset, attempts);
            var last := attempts[|attempts| - 1];
            && t.st.state != HalfOpen
            && (t.st.state == Closed ==> t.allowed == t.st.failures < threshold)
            && (t.st.state == Open ==>
                  && t.allowed >= threshold && t.st.openedAt <= last.end
                  && attempts[0].start + Cooldowns(t.allowed - threshold, reset) <= t.st.openedAt
                  && attempts[0].start + Cooldowns(t.allowed - threshold, reset) <= last.start)
    decreases |attempts|
  {
    var n := |attempts| - 1;
    assert attempts[n].start <= attempts[n].end;
    CooldownsAdd(0, reset);
    if n > 0 {
      assert attempts[..n][n - 1].end <= attempts[n].start;
      HammerInv(threshold, reset, attempts[..n]);
      var t := Hammer(threshold, reset, attempts[..n]);
      CooldownsAdd(t.allowed - threshold, reset);
      StartsGrow(attempts, n);
    } else {
      assert attempts[..0] == [];
    }
  }

  lemma {:induction false} StartsGrow(attempts: seq<Attempt>, n: nat)
    requires OneAfterAnother(attempts) && n < |attempts|
    ensures attempts[0].start <= attempts[n].start
  {
    if n > 0 {
      StartsGrow(attempts, n - 1);
    }
  }

  /** Fetching one after another from a host that always fails: over a time T at most
      `failure_threshold + floor(T / reset_seconds)` fetches are allowed. */
  lemma DeadHostBound(threshold: nat, reset: real, attempts: seq<Attempt>)
    requires threshold > 0 && reset > 0.0 && OneAfterAnother(attempts) && attempts != []
    ensures Hammer(threshold, reset, attempts).allowed
         <= threshold + ((attempts[|attempts| - 1].start - attempts[0].start) / reset).Floor
  {
    HammerInv(threshold, reset, attempts);
    StartsGrow(attempts, |attempts| - 1);
    var t := Hammer(threshold, reset, attempts);
    var time := attempts[|attempts| - 1].start - attempts[0].start;
    WholeCooldowns(if t.allowed >= threshold then t.allowed - threshold else 0, reset, time);
  }

  lemma WholeCooldowns(n: nat, reset: real, time: real)
    requires reset > 0.0 && time >= 0.0 && Cooldowns(n, reset) <= time
    ensures n <= (time / reset).Floor
  {
    var q := time / reset;
    assert q * reset == time;
    assert (n as real - q) * reset == n as real * reset - q * reset;
    if n as real > q {
      ProductPositive(n as real - q, reset);
    }
  }
}
