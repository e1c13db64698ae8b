/** The nested gates of a fetch: global back-pressure (crawler/resilience/backpressure.py), the host's
    semaphore and the limiter's lock (crawler/robots/politeness.py, crawler/ratelimit/local.py). */
module Gates {

  // ---------------------------------------------------------------- the objects

  class Backpressure {
    const limit: int
    /** The semaphore's counter. */
    var value: int

    /** The source raises for a non-positive limit. */
    constructor (limit: int)
      requires limit > 0
      ensures this.limit == limit && value == limit
    {
      this.limit, value := limit, limit;
    }

    function InFlight(): int
      reads this
    {
      limit - value
    }

    /** `__aenter__` suspends until the counter is positive. */
    method Enter()
      requires value > 0
      modifies this
      ensures InFlight() == old(InFlight()) + 1 && value >= 0
    {
      value := value - 1;
    }

    method Exit()
      modifies this
      ensures InFlight() == old(InFlight()) - 1
    {
      value := value + 1;
    }
  }

  function Value(semaphores: map<string, int>, perHost: int, host: string): int {
    if host in semaphores then semaphores[host] else perHost
  }

  class HostSemaphores {
    const perHost: int
    var semaphores: map<string, int>

    constructor (perHost: int)
      ensures this.perHost == perHost && semaphores == map[]
    {
      this.perHost, semaphores := perHost, map[];
    }

    /** `_semaphore` makes one on first use, which nobody can tell from having had it all along. */
    method Semaphore(host: string)
      modifies this
      ensures host in semaphores
      ensures semaphores == if host in old(semaphores) then old(semaphores) else old(semaphores)[host := perHost]
      ensures forall h :: Value(semaphores, perHost, h) == old(Value(semaphores, perHost, h))
    {
      if host !in semaphores {
        semaphores := semaphores[host := perHost];
      }
    }

    method Acquire(host: string)
      requires Value(semaphores, perHost, host) > 0
      modifies this
      ensures semaphores == old(semaphores)[host := old(Value(semaphores, perHost, host)) - 1]
    {
      Semaphore(host);
      semaphores := semaphores[host := semaphores[host] - 1];
    }

    method Release(host: string)
      requires host in semaphores
      modifies this
      ensures semaphores == old(semaphores)[host := old(semaphores[host]) + 1]
    {
      semaphores := semaphores[host := semaphores[host] + 1];
    }
  }

  // ---------------------------------------------------------------- many tasks

  datatype Config = Config(limit: int, perHost: int)

  /** Waiting for the gate; waiting for the host's semaphore; inside it, on the way to the limiter;
      inside the limiter's lock; fetching; finished. */
  datatype Phase = AtGate | AtHost | AtLimiter | InLimiter | Fetching | Finished

  /** A task without a delay does not use the limiter. */
  datatype Task = Task(host: string, delayed: bool, phase: Phase)

  datatype State = State(gate: int, semaphores: map<string, int>, locked: set<string>, tasks: seq<Task>)

  function Init(c: Config, tasks: seq<Task>): State {
    State(c.limit, map[], {}, tasks)
  }

  predicate HoldsGate(t: Task) {
    t.phase != AtGate && t.phase != Finished
  }

  predicate HoldsHost(t: Task) {
    t.phase == AtLimiter || t.phase == InLimiter || t.phase == Fetching
  }

  predicate HoldsLock(t: Task) {
    t.phase == InLimiter
  }

  function To(s: State, i: nat, phase: Phase): State
    requires i < |s.tasks|
  {
    s.(tasks := s.tasks[i := s.tasks[i].(phase := phase)])
  }

  function TakeHost(c: Config, s: State, host: string, n: int): State {
    s.(semaphores := s.semaphores[host := Value(s.semaphores, c.perHost, host) - n])
  }

  ghost predicate EnterGate(s: State, s': State, i: nat) {
    && i < |s.tasks| && s.tasks[i].phase == AtGate && s.gate > 0
    && s' == To(s.(gate := s.gate - 1), i, AtHost)
  }

  ghost predicate EnterHost(c: Config, s: State, s': State, i: nat) {
    && i < |s.tasks| && s.tasks[i].phase == AtHost && Value(s.semaphores, c.perHost, s.tasks[i].host) > 0
    && s' == To(TakeHost(c, s, s.tasks[i].host, 1), i, AtLimiter)
  }

  ghost predicate PassLimiter(s: State, s': State, i: nat) {
    && i < |s.tasks| && s.tasks[i].phase == AtLimiter && !s.tasks[i].delayed
    && s' == To(s, i, Fetching)
  }

  ghost predicate LockLimiter(s: State, s': State, i: nat) {
    && i < |s.tasks| && s.tasks[i].phase == AtLimiter && s.tasks[i].delayed && s.tasks[i].host !in s.locked
    && s' == To(s.(locked := s.locked + {s.tasks[i].host}), i, InLimiter)
  }

  /** Time passes until the limiter grants, which takes at most one sleep. */
  ghost predicate Grant(s: State, s': State, i: nat) {
    && i < |s.tasks| && s.tasks[i].phase == InLimiter
    && s' == To(s.(locked := s.locked - {s.tasks[i].host}), i, Fetching)
  }

  /** The fetch is over: the slot is left first, then the gate. */
  ghost predicate Leave(c: Config, s: State, s': State, i: nat) {
    && i < |s.tasks| && s.tasks[i].phase == Fetching
    && s' == To(TakeHost(c, s.(gate := s.gate + 1), s.tasks[i].host, -1), i, Finished)
  }

  /** An exception or a cancellation at a suspension point unwinds whatever it holds. */
  ghost predicate Cancel(c: Config, s: State, s': State, i: nat) {
    && i < |s.tasks| && s.tasks[i].phase != Finished
    && var t := s.tasks[i];
       var unlocked := if HoldsLock(t) then s.(locked := s.locked - {t.host}) else s;
       var outside := if HoldsHost(t) then TakeHost(c, unlocked, t.host, -1) else unlocked;
       var released := if HoldsGate(t) then outside.(gate := outside.gate + 1) else outside;
       s' == To(released, i, Finished)
  }

  ghost predicate Advance(c: Config, s: State, s': State, i: nat) {
    || EnterGate(s, s', i) || EnterHost(c, s, s', i) || PassLimiter(s, s', i) || LockLimiter(s, s', i)
    || Grant(s, s', i) || Leave(c, s, s', i)
  }

  ghost predicate Step(c: Config, s: State, s': State) {
    exists i: nat :: Advance(c, s, s', i) || Cancel(c, s, s', i)
  }

  ghost predicate Run(c: Config, ss: seq<State>) {
    && ss != [] && (forall i :: 0 <= i < |ss[0].tasks| ==> ss[0].tasks[i].phase == AtGate)
    && ss[0] == Init(c, ss[0].tasks)
    && forall k :: 0 <= k < |ss| - 1 ==> Step(c, ss[k], ss[k + 1])
  }

  // ---------------------------------------------------------------- the invariant

  function InGate(tasks: seq<Task>): set<nat> {
    set i: nat | i < |tasks| && HoldsGate(tasks[i])
  }

  function InHost(tasks: seq<Task>, host: string): set<nat> {
    set i: nat | i < |tasks| && tasks[i].host == host && HoldsHost(tasks[i])
  }

  /** The counters say exactly who is inside. */
  ghost predicate Inv(c: Config, s: State) {
    && s.gate >= 0 && s.gate == c.limit - |InGate(s.tasks)|
    && (forall h ::
          && Value(s.semaphores, c.perHost, h) == c.perHost - |InHost(s.tasks, h)|
          && Value(s.semaphores, c.perHost, h) >= 0)
    && LocksOk(s)
  }

  /** A host's lock is held exactly by the one task inside its limiter. */
  ghost predicate LocksOk(s: State) {
    && (forall i :: 0 <= i < |s.tasks| && HoldsLock(s.tasks[i]) ==> s.tasks[i].host in s.locked)
    && (forall i, j :: 0 <= i < j < |s.tasks| && HoldsLock(s.tasks[i]) && HoldsLock(s.tasks[j]) ==>
        s.tasks[i].host != s.tasks[j].host)
    && (forall h :: h in s.locked ==> exists i :: 0 <= i < |s.tasks| && s.tasks[i].host == h && HoldsLock(s.tasks[i]))
  }

  lemma InGateUpdate(tasks: seq<Task>, i: nat, t: Task)
    requires i < |tasks|
    ensures InGate(tasks[i := t]) == if HoldsGate(t) then InGate(tasks) + {i} else InGate(tasks) - {i}
  {
  }

  lemma InHostUpdate(tasks: seq<Task>, i: nat, t: Task, h: string)
    requires i < |tasks| && t.host == tasks[i].host
    ensures InHost(tasks[i := t], h)
         == if t.host == h && HoldsHost(t) then InHost(tasks, h) + {i} else InHost(tasks, h) - {i}
  {
  }

  function One(b: bool): int {
    if b then 1 else 0
  }

  lemma GateCount(tasks: seq<Task>, i: nat, t: Task)
    requires i < |tasks|
    ensures |InGate(tasks[i := t])| == |InGate(tasks)| + One(HoldsGate(t)) - One(HoldsGate(tasks[i]))
  {
    InGateUpdate(tasks, i, t);
    assert i in InGate(tasks) <==> HoldsGate(tasks[i]);
    AddOrDrop(InGate(tasks), i);
  }

  lemma HostCount(tasks: seq<Task>, i: nat, t: Task, h: string)
    requires i < |tasks| && t.host == tasks[i].host
    ensures |InHost(tasks[i := t], h)|
         == |InHost(tasks, h)| + (if t.host == h then One(HoldsHost(t)) - One(HoldsHost(tasks[i])) else 0)
  {
    InHostUpdate(tasks, i, t, h);
    assert i in InHost(tasks, h) <==> t.host == h && HoldsHost(tasks[i]);
    AddOrDrop(InHost(tasks, h), i);
  }

  lemma AddOrDrop(s: set<nat>, i: nat)
    ensures |s + {i}| == if i in s then |s| else |s| + 1
    ensures |s - {i}| == if i in s then |s| - 1 else |s|
  {
  }

  lemma MoveKeepsLocks(s: State, s': State, i: nat, phase: Phase)
    requires i < |s.tasks| && LocksOk(s) && s'.tasks == To(s, i, phase).tasks
    requires var t, t' := s.tasks[i], s'.tasks[i];
             && s'.locked == (if HoldsLock(t') then s.locked + {t.host}
                              else if HoldsLock(t) then s.locked - {t.host}
                              else s.locked)
             && (HoldsLock(t') && !HoldsLock(t) ==> t.host !in s.locked)
    ensures LocksOk(s')
  {
    forall h | h in s'.locked
      ensures exists j :: 0 <= j < |s'.tasks| && s'.tasks[j].host == h && HoldsLock(s'.tasks[j])
    {
      if HoldsLock(s'.tasks[i]) && h == s.tasks[i].host {
      } else {
        var j :| 0 <= j < |s.tasks| && s.tasks[j].host == h && HoldsLock(s.tasks[j]);
        assert s'.tasks[j] == s.tasks[j];
      }
    }
  }

  /** Task `i` changes phase and takes and gives exactly what the phases differ in. */
  ghost predicate Moves(c: Config, s: State, s': State, i: nat)
    requires i < |s.tasks| == |s'.tasks|
  {
    && s'.tasks == s.tasks[i := s.tasks[i].(phase := s'.tasks[i].phase)]
    && var t, t' := s.tasks[i], s'.tasks[i];
       && s'.gate == s.gate + One(HoldsGate(t)) - One(HoldsGate(t')) >= 0
       && (forall h :: Value(s'.semaphores, c.perHost, h) == Value(s.semaphores, c.perHost, h)
             + if h == t.host then One(HoldsHost(t)) - One(HoldsHost(t')) else 0)
       && Value(s'.semaphores, c.perHost, t.host) >= 0
       && s'.locked == (if HoldsLock(t') then s.locked + {t.host}
                        else if HoldsLock(t) then s.locked - {t.host}
                        else s.locked)
       && (HoldsLock(t') && !HoldsLock(t) ==> t.host !in s.locked)
  }

  lemma MoveKeepsInv(c: Config, s: State, s': State, i: nat)
    requires i < |s.tasks| == |s'.tasks| && Inv(c, s) && Moves(c, s, s', i)
    ensures Inv(c, s')
  {
    MoveKeepsLocks(s, s', i, s'.tasks[i].phase);
    hide LocksOk, InGate, InHost, Value;
    GateCount(s.tasks, i, s'.tasks[i]);
    forall h
      ensures Value(s'.semaphores, c.perHost, h) == c.perHost - |InHost(s'.tasks, h)|
      ensures Value(s'.semaphores, c.perHost, h) >= 0
    {
      HostCount(s.tasks, i, s'.tasks[i], h);
    }
  }

  lemma AdvanceMoves(c: Config, s: State, s': State, i: nat)
    requires Advance(c, s, s', i) && s.gate >= 0 && forall h :: Value(s.semaphores, c.perHost, h) >= 0
    ensures i < |s.tasks| == |s'.tasks| && Moves(c, s, s', i)
  {
  }

  lemma CancelMoves(c: Config, s: State, s': State, i: nat)
    requires Cancel(c, s, s', i) && s.gate >= 0 && forall h :: Value(s.semaphores, c.perHost, h) >= 0
    ensures i < |s.tasks| == |s'.tasks| && Moves(c, s, s', i)
  {
  }

  lemma StepKeepsInv(c: Config, s: State, s': State)
    requires Inv(c, s) && Step(c, s, s')
    ensures Inv(c, s')
  {
    hide Inv, Advance, Cancel, Moves;
    var i: nat :| Advance(c, s, s', i) || Cancel(c, s, s', i);
    Counters(c, s);
    if Advance(c, s, s', i) {
      AdvanceMoves(c, s, s', i);
    } else {
      CancelMoves(c, s, s', i);
    }
    MoveKeepsInv(c, s, s', i);
  }

  lemma Counters(c: Config, s: State)
    requires Inv(c, s)
    ensures s.gate >= 0 && forall h :: Value(s.semaphores, c.perHost, h) >= 0
  {
  }

  lemma {:induction false} RunInv(c: Config, ss: seq<State>)
    requires Run(c, ss) && c.limit > 0 && c.perHost >= 0
    ensures Inv(c, ss[|ss| - 1])
    decreases |ss|
  {
    if |ss| == 1 {
      var s := ss[0];
      assert InGate(s.tasks) == {};
      forall h
        ensures InHost(s.tasks, h) == {}
      {
      }
    } else {
      var n := |ss| - 1;
      RunPrefix(c, ss);
      hide Run, Step, Inv;
      RunInv(c, ss[..n]);
      StepKeepsInv(c, ss[n - 1], ss[n]);
    }
  }

  lemma RunPrefix(c: Config, ss: seq<State>)
    requires Run(c, ss) && |ss| > 1
    ensures var n := |ss| - 1; Run(c, ss[..n]) && Step(c, ss[n - 1], ss[n])
  {
  }

  // ---------------------------------------------------------------- caps

  function FetchingAt(tasks: seq<Task>, host: string): set<nat> {
    set i: nat | i < |tasks| && tasks[i].host == host && tasks[i].phase == Fetching
  }

  lemma SubsetSize(a: set<nat>, b: set<nat>)
    requires a <= b
    ensures |a| <= |b|
  {
    assert |b| == |a| + |b - a| by { assert b == a + (b - a); }
  }

  /** In every interleaving, cancellations included: at most `limit` tasks are inside the gate, at most
      `per_host_concurrency` of them fetch from one host, and `in_flight` counts the former. */
  lemma Caps(c: Config, ss: seq<State>, host: string)
    requires Run(c, ss) && c.limit > 0 && c.perHost >= 0
    ensures var s := ss[|ss| - 1];
            && |InGate(s.tasks)| <= c.limit && c.limit - s.gate == |InGate(s.tasks)|
            && |FetchingAt(s.tasks, host)| <= |InHost(s.tasks, host)| <= c.perHost
            && InGate(s.tasks)
               == (set i: nat | i < |s.tasks| && s.tasks[i].phase != AtGate && s.tasks[i].phase != Finished)
            && FetchingAt(s.tasks, host)
               == (set i: nat | i < |s.tasks| && s.tasks[i].host == host && s.tasks[i].phase == Fetching)
  {
    RunInv(c, ss);
    var s := ss[|ss| - 1];
    assert Value(s.semaphores, c.perHost, host) >= 0;
    SubsetSize(FetchingAt(s.tasks, host), InHost(s.tasks, host));
  }

  // ---------------------------------------------------------------- progress

  predicate Unfinished(s: State, i: nat) {
    i < |s.tasks| && s.tasks[i].phase != Finished
  }

  ghost predicate AllFinished(s: State) {
    forall i: nat :: !Unfinished(s, i)
  }

  /** Some task can go on without being cancelled. */
  ghost predicate CanAdvance(c: Config, s: State) {
    exists s', i :: Advance(c, s, s', i)
  }

  lemma InsideAdvances(c: Config, s: State, i: nat)
    requires Inv(c, s) && i < |s.tasks| && HoldsHost(s.tasks[i])
    ensures CanAdvance(c, s)
  {
    match s.tasks[i].phase
    case Fetching =>
      assert Leave(c, s, To(TakeHost(c, s.(gate := s.gate + 1), s.tasks[i].host, -1), i, Finished), i);
      assert Advance(c, s, To(TakeHost(c, s.(gate := s.gate + 1), s.tasks[i].host, -1), i, Finished), i);
    case InLimiter =>
      assert Advance(c, s, To(s.(locked := s.locked - {s.tasks[i].host}), i, Fetching), i);
    case AtLimiter =>
      if !s.tasks[i].delayed {
        assert Advance(c, s, To(s, i, Fetching), i);
      } else if s.tasks[i].host !in s.locked {
        assert Advance(c, s, To(s.(locked := s.locked + {s.tasks[i].host}), i, InLimiter), i);
      } else {
        var j :| 0 <= j < |s.tasks| && s.tasks[j].host == s.tasks[i].host && HoldsLock(s.tasks[j]);
        assert Advance(c, s, To(s.(locked := s.locked - {s.tasks[j].host}), j, Fetching), j);
      }
  }

  /** Gate, then host, then limiter is an order without deadlock: whoever waits, waits for someone
      further in, and the innermost can go on. */
  lemma NoDeadlock(c: Config, s: State, i: nat)
    requires Inv(c, s) && c.limit > 0 && c.perHost > 0 && Unfinished(s, i)
    ensures CanAdvance(c, s)
  {
    if j :| 0 <= j < |s.tasks| && HoldsHost(s.tasks[j]) {
      InsideAdvances(c, s, j);
    } else if j :| 0 <= j < |s.tasks| && s.tasks[j].phase == AtHost {
      assert InHost(s.tasks, s.tasks[j].host) == {};
      assert Value(s.semaphores, c.perHost, s.tasks[j].host) == c.perHost;
      assert Advance(c, s, To(TakeHost(c, s, s.tasks[j].host, 1), j, AtLimiter), j);
    } else {
      assert InGate(s.tasks) == {};
      assert s.tasks[i].phase == AtGate;
      assert Advance(c, s, To(s.(gate := s.gate - 1), i, AtHost), i);
    }
  }

  ghost predicate DeadlockFree(c: Config) {
    forall ss :: Run(c, ss) ==> AllFinished(ss[|ss| - 1]) || CanAdvance(c, ss[|ss| - 1])
  }

  /** With a host semaphore of zero, which nothing rules out, the first task through the gate is stuck. */
  lemma StuckWithoutHostSlots(c: Config) returns (ss: seq<State>)
    requires c.limit > 0 && c.perHost == 0
    ensures Run(c, ss) && !AllFinished(ss[|ss| - 1]) && !CanAdvance(c, ss[|ss| - 1])
  {
    var s := Init(c, [Task("h", true, AtGate)]);
    var s' := To(s.(gate := s.gate - 1), 0, AtHost);
    assert Advance(c, s, s', 0);
    ss := [s, s'];
    assert Step(c, ss[0], ss[0 + 1]);
    assert forall i :: 0 <= i < |s'.tasks| ==> s'.tasks[i].phase == AtHost;
    assert Unfinished(s', 0);
  }

  lemma DeadlockFreeIff(c: Config)
    requires c.limit > 0 && c.perHost >= 0
    ensures DeadlockFree(c) <==> c.perHost > 0
  {
    if c.perHost > 0 {
      forall ss | Run(c, ss)
        ensures AllFinished(ss[|ss| - 1]) || CanAdvance(c, ss[|ss| - 1])
      {
        RunInv(c, ss);
        var s := ss[|ss| - 1];
        if !AllFinished(s) {
          var i: nat :| Unfinished(s, i);
          NoDeadlock(c, s, i);
        }
      }
    } else {
      var ss := StuckWithoutHostSlots(c);
    }
  }

  /** The phases a task still has to go through. */
  function Distance(phase: Phase): nat {
    match phase
    case AtGate => 5
    case AtHost => 4
    case AtLimiter => 3
    case InLimiter => 2
    case Fetching => 1
    case Finished => 0
  }

  function TotalDistance(tasks: seq<Task>): nat {
    if tasks == [] then 0 else Distance(tasks[0].phase) + TotalDistance(tasks[1..])
  }

  lemma {:induction false} DistanceUpdate(tasks: seq<Task>, i: nat, t: Task)
    requires i < |tasks|
    ensures TotalDistance(tasks[i := t]) == TotalDistance(tasks) - Distance(tasks[i].phase) + Distance(t.phase)
  {
    if i == 0 {
      assert tasks[0 := t][1..] == tasks[1..];
    } else {
      assert tasks[i := t][1..] == tasks[1..][i - 1 := t];
      DistanceUpdate(tasks[1..], i - 1, t);
    }
  }

  lemma {:induction false} AllAtGate(tasks: seq<Task>)
    requires forall i :: 0 <= i < |tasks| ==> tasks[i].phase == AtGate
    ensures TotalDistance(tasks) == 5 * |tasks|
  {
    if tasks != [] {
      AllAtGate(tasks[1..]);
    }
  }

  lemma StepShortens(c: Config, s: State, s': State)
    requires Step(c, s, s')
    ensures |s'.tasks| == |s.tasks| && TotalDistance(s'.tasks) < TotalDistance(s.tasks)
  {
    hide TotalDistance;
    var i: nat :| Advance(c, s, s', i) || Cancel(c, s, s', i);
    DistanceUpdate(s.tasks, i, s'.tasks[i]);
  }

  /** Every run of `n` tasks is over after at most `5 * n` steps; with `DeadlockFreeIff`, a run that
      cannot be extended has finished all its tasks. */
  lemma {:induction false} RunsAreShort(c: Config, ss: seq<State>)
    requires Run(c, ss)
    ensures |ss[|ss| - 1].tasks| == |ss[0].tasks|
    ensures |ss| - 1 + TotalDistance(ss[|ss| - 1].tasks) <= 5 * |ss[0].tasks|
    decreases |ss|
  {
    if |ss| == 1 {
      AllAtGate(ss[0].tasks);
    } else {
      var n := |ss| - 1;
      RunPrefix(c, ss);
      hide Run, Step, TotalDistance;
      RunsAreShort(c, ss[..n]);
      StepShortens(c, ss[n - 1], ss[n]);
    }
  }
}
