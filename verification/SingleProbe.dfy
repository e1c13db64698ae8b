/** The documented single probe of a half-open circuit (crawler/resilience/circuit_breaker.py): when the
    breaker keeps it, with every outcome tied to the ask of its own fetch. */
module SingleProbe {
  import opened CircuitBreaker

  // ---------------------------------------------------------------- one host's events

  /** A call of `allow`; the outcome of the fetch that ask number `ask` let through; the end of that call
      without an outcome, because the budget refused it or something raised. */
  datatype HostEvent =
    | Asked(now: real)
    | Recorded(ask: nat, outcome: Outcome, now: real)
    | GaveUp(ask: nat, now: real)

  type Events = seq<HostEvent>

  function AfterEvent(st: HostState, e: HostEvent, threshold: nat, reset: real): HostState {
    match e
    case Asked(now) => AfterAllow(st, now, reset)
    case Recorded(_, outcome, now) => AfterOutcome(st, outcome, now, threshold)
    case GaveUp(_, _) => st
  }

  /** The host before event `k`. */
  function StateAt(events: Events, k: nat, threshold: nat, reset: real): HostState
    requires k <= |events|
  {
    if k == 0 then FRESH else AfterEvent(StateAt(events, k - 1, threshold, reset), events[k - 1], threshold, reset)
  }

  /** Ask `j` was let through. */
  predicate LetThrough(events: Events, j: nat, threshold: nat, reset: real) {
    j < |events| && events[j].Asked? && Allows(StateAt(events, j, threshold, reset), events[j].now, reset)
  }

  /** It was let through although the circuit was not closed. */
  predicate IsProbe(events: Events, j: nat, threshold: nat, reset: real) {
    LetThrough(events, j, threshold, reset) && StateAt(events, j, threshold, reset).state != Closed
  }

  /** The call of ask `j` has ended before event `k`. */
  ghost predicate Ended(events: Events, j: nat, k: nat)
    requires k <= |events|
  {
    exists i :: j < i < k && !events[i].Asked? && events[i].ask == j
  }

  /** Probe `j` is still out at event `k`. */
  ghost predicate Out(events: Events, j: nat, k: nat, threshold: nat, reset: real) {
    j < k <= |events| && IsProbe(events, j, threshold, reset) && !Ended(events, j, k)
  }

  /** Every end belongs to an ask that was let through, and each such ask ends at most once. */
  ghost predicate Tied(events: Events, threshold: nat, reset: real) {
    forall i :: 0 <= i < |events| && !events[i].Asked? ==>
      events[i].ask < i && LetThrough(events, events[i].ask, threshold, reset) && !Ended(events, events[i].ask, i)
  }

  /** The promise: at no time are two probes out. */
  ghost predicate KeepsSingleProbe(events: Events, threshold: nat, reset: real) {
    forall j: nat, j': nat, k: nat ::
      Out(events, j, k, threshold, reset) && Out(events, j', k, threshold, reset) ==> j == j'
  }

  // ---------------------------------------------------------------- what breaks it

  ghost predicate NoOutcomeBetween(events: Events, j: nat, k: nat)
    requires k <= |events|
  {
    forall i :: j < i < k ==> !events[i].Recorded?
  }

  /** Somebody asks at `k` while probe `j` is out and nothing has been recorded since. */
  ghost predicate AsksAgain(events: Events, j: nat, k: nat, threshold: nat, reset: real) {
    && k < |events| && events[k].Asked?
    && Out(events, j, k, threshold, reset) && NoOutcomeBetween(events, j, k)
  }

  predicate FindsCooledDown(events: Events, k: nat, threshold: nat, reset: real) {
    && k < |events| && events[k].Asked?
    && var st := StateAt(events, k, threshold, reset);
       st.state == Open && events[k].now - st.openedAt >= reset
  }

  /** Probe `j` is out while the circuit has re-opened, cooled down and let through probe `k`. */
  ghost predicate Outlasted(events: Events, j: nat, k: nat, threshold: nat, reset: real) {
    Out(events, j, k, threshold, reset) && FindsCooledDown(events, k, threshold, reset)
  }

  /** Admissions of a circuit that was not closed, since the last recorded outcome. */
  function ProbesSinceOutcome(events: Events, k: nat, threshold: nat, reset: real): nat
    requires k <= |events|
  {
    if k == 0 || events[k - 1].Recorded? then 0
    else ProbesSinceOutcome(events, k - 1, threshold, reset) + if IsProbe(events, k - 1, threshold, reset) then 1 else 0
  }

  /** A host is half-open exactly when it has been asked as a probe since the last recorded outcome. */
  lemma {:induction false} HalfOpenIffProbing(events: Events, k: nat, threshold: nat, reset: real)
    requires k <= |events|
    ensures StateAt(events, k, threshold, reset).state == HalfOpen <==>
            ProbesSinceOutcome(events, k, threshold, reset) >= 1
  {
    if k > 0 {
      HalfOpenIffProbing(events, k - 1, threshold, reset);
    }
  }

  /** A half-open host goes back to an ask that found the cooldown over. */
  lemma {:induction false} FirstProbe(events: Events, k: nat, threshold: nat, reset: real) returns (j: nat)
    requires k <= |events| && StateAt(events, k, threshold, reset).state == HalfOpen
    ensures j < k && FindsCooledDown(events, j, threshold, reset) && NoOutcomeBetween(events, j, k)
  {
    if StateAt(events, k - 1, threshold, reset).state == HalfOpen {
      j := FirstProbe(events, k - 1, threshold, reset);
    } else {
      j := k - 1;
    }
  }

  /** After a probe the host is half-open until an outcome is recorded. */
  lemma {:induction false} StaysHalfOpen(events: Events, j: nat, k: nat, threshold: nat, reset: real)
    requires j < k <= |events| && IsProbe(events, j, threshold, reset) && NoOutcomeBetween(events, j, k)
    ensures StateAt(events, k, threshold, reset).state == HalfOpen
    decreases k
  {
    if j + 1 < k {
      StaysHalfOpen(events, j, k - 1, threshold, reset);
    }
  }

  /** The promise is kept exactly when no probe is let through while another is out. */
  lemma SingleUnlessProbedAgain(events: Events, threshold: nat, reset: real)
    ensures KeepsSingleProbe(events, threshold, reset) <==>
            forall j: nat, k: nat :: Out(events, j, k, threshold, reset) ==> !IsProbe(events, k, threshold, reset)
  {
    if j: nat, k: nat :| Out(events, j, k, threshold, reset) && IsProbe(events, k, threshold, reset) {
      assert Out(events, j, k + 1, threshold, reset) && Out(events, k, k + 1, threshold, reset);
    }
    if j: nat, j': nat, k: nat :|
      Out(events, j, k, threshold, reset) && Out(events, j', k, threshold, reset) && j != j' {
      var first, second := if j < j' then j else j', if j < j' then j' else j;
      EndsGrow(events, first, second, k);
      assert Out(events, first, second, threshold, reset) && IsProbe(events, second, threshold, reset);
    }
  }

  /** A second probe beside `j` is an ask before any outcome, or one that follows a re-opening. */
  lemma SecondProbe(events: Events, j: nat, k: nat, threshold: nat, reset: real) returns (a: nat)
    requires Out(events, j, k, threshold, reset) && IsProbe(events, k, threshold, reset)
    ensures AsksAgain(events, j, k, threshold, reset) || Outlasted(events, j, a, threshold, reset)
  {
    a := k;
    if StateAt(events, k, threshold, reset).state == HalfOpen && !NoOutcomeBetween(events, j, k) {
      a := FirstProbe(events, k, threshold, reset);
      var i :| j < i < k && events[i].Recorded?;
      assert i < a;
      EndsGrow(events, j, a, k);
    }
  }

  lemma EndsGrow(events: Events, j: nat, a: nat, k: nat)
    requires a <= k <= |events|
    ensures Ended(events, j, a) ==> Ended(events, j, k)
  {
  }

  /** For every interleaving of asks, outcomes and failures of a host: at most one probe is out at any time
      exactly when nobody asks again before an outcome, and no probe outlasts a re-opening and its cooldown. */
  lemma SingleProbeIff(events: Events, threshold: nat, reset: real)
    ensures KeepsSingleProbe(events, threshold, reset) <==>
            forall j: nat, k: nat ::
              !AsksAgain(events, j, k, threshold, reset) && !Outlasted(events, j, k, threshold, reset)
  {
    SingleUnlessProbedAgain(events, threshold, reset);
    if j: nat, k: nat :| AsksAgain(events, j, k, threshold, reset) {
      StaysHalfOpen(events, j, k, threshold, reset);
      assert Out(events, j, k, threshold, reset) && IsProbe(events, k, threshold, reset);
    }
    if j: nat, k: nat :| Outlasted(events, j, k, threshold, reset) {
      assert Out(events, j, k, threshold, reset) && IsProbe(events, k, threshold, reset);
    }
    if j: nat, k: nat :| Out(events, j, k, threshold, reset) && IsProbe(events, k, threshold, reset) {
      var a := SecondProbe(events, j, k, threshold, reset);
      assert AsksAgain(events, j, k, threshold, reset) || Outlasted(events, j, a, threshold, reset);
    }
  }

  // ---------------------------------------------------------------- fetches that end in time

  ghost predicate ClockForward(events: Events) {
    forall i, k :: 0 <= i < k < |events| ==> events[i].now <= events[k].now
  }

  /** No fetch is out for the cooldown or longer. */
  ghost predicate Prompt(events: Events, threshold: nat, reset: real) {
    forall j: nat, k: nat :: j < k < |events| && LetThrough(events, j, threshold, reset) && !Ended(events, j, k) ==>
      events[k].now - events[j].now < reset
  }

  /** What has opened since a probe has opened after it. */
  lemma {:induction false} OpenedLater(events: Events, j: nat, k: nat, threshold: nat, reset: real)
    requires ClockForward(events) && IsProbe(events, j, threshold, reset) && j < k <= |events|
    ensures var st := StateAt(events, k, threshold, reset); st.state == Open ==> st.openedAt >= events[j].now
    decreases k
  {
    if j + 1 < k {
      OpenedLater(events, j, k - 1, threshold, reset);
    }
  }

  /** If every call ends within the cooldown, on a clock that does not step back, at most one probe is out
      exactly when nobody asks again between a probe and the next outcome. */
  lemma PromptSingleProbeIff(events: Events, threshold: nat, reset: real)
    requires ClockForward(events) && Prompt(events, threshold, reset)
    ensures KeepsSingleProbe(events, threshold, reset) <==>
            forall j: nat, k: nat :: !AsksAgain(events, j, k, threshold, reset)
  {
    SingleProbeIff(events, threshold, reset);
    forall j: nat, k: nat | Out(events, j, k, threshold, reset)
      ensures !Outlasted(events, j, k, threshold, reset)
    {
      OpenedLater(events, j, k, threshold, reset);
    }
  }

  // ---------------------------------------------------------------- the two ways, concretely

  /** Two asks after the cooldown. */
  lemma TwoAsksBreakIt() returns (events: Events)
    ensures Tied(events, 1, 10.0) && ClockForward(events) && Prompt(events, 1, 10.0)
    ensures !KeepsSingleProbe(events, 1, 10.0)
  {
    events := [Asked(0.0), Recorded(0, Failed, 1.0), Asked(11.0), Asked(11.0)];
    assert StateAt(events, 2, 1, 10.0) == HostState(1, 1.0, Open);
    assert StateAt(events, 3, 1, 10.0) == HostState(1, 1.0, HalfOpen);
    hide StateAt;
    assert Out(events, 2, 4, 1, 10.0) && Out(events, 3, 4, 1, 10.0);
  }

  /** Nobody asks before an outcome, but the late failure of an older fetch re-opens the circuit while the
      probe is out, and the probe outlasts the next cooldown. */
  lemma LateFailureBreaksIt() returns (events: Events)
    ensures Tied(events, 1, 10.0) && ClockForward(events) && !KeepsSingleProbe(events, 1, 10.0)
    ensures forall j: nat, k: nat :: !AsksAgain(events, j, k, 1, 10.0)
  {
    events := [Asked(0.0), Asked(0.0), Recorded(0, Failed, 1.0), Asked(11.0), Recorded(1, Failed, 12.0), Asked(22.0)];
    assert StateAt(events, 1, 1, 10.0) == FRESH && StateAt(events, 2, 1, 10.0) == FRESH;
    assert StateAt(events, 3, 1, 10.0) == HostState(1, 1.0, Open);
    assert StateAt(events, 4, 1, 10.0) == HostState(1, 1.0, HalfOpen);
    assert StateAt(events, 5, 1, 10.0) == HostState(1, 12.0, Open);
    hide StateAt;
    assert Out(events, 3, 6, 1, 10.0) && Out(events, 5, 6, 1, 10.0);
  }
}
