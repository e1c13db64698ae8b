/** When a child is lost: exactly the steps that drop one, and what becomes of every marked URL. */
module LostChildren {
  import opened Frontier
  import opened Delivery
  import opened DeliverySafety
  import opened DeliveryTheorems
  import Engine

  /** The call is the first to mark `u` and does not go on to enqueue it: the Bloom filter takes a new
      URL for a known one, or the check fails after it has marked. */
  ghost predicate DropsAtGate(s: State, s': State, i: nat, u: Url) {
    && i < |s.tasks| && s.tasks[i].phase.Gating? && s.tasks[i].phase.next < |s.tasks[i].phase.links|
    && s.tasks[i].phase.links[s.tasks[i].phase.next] == u
    && u !in s.seen && u in s'.seen && !Pending(s', i, u)
  }

  /** The call that was to enqueue `u` fails before the record is written. */
  ghost predicate DropsAtEnqueue(s: State, s': State, i: nat, u: Url) {
    Pending(s, i, u) && s'.logs == s.logs
  }

  ghost predicate Drops(s: State, s': State, e: Event, u: Url) {
    e.EvTask? && (DropsAtGate(s, s', e.i, u) || DropsAtEnqueue(s, s', e.i, u))
  }

  /** A step loses a child exactly when it drops it. */
  lemma NextDrops(c: Config, s: State, s': State, e: Event, u: Url)
    requires Once(s) && Next(c, s, s', e) && !Lost(s, u)
    ensures Lost(s', u) <==> Drops(s, s', e, u)
  {
    if Drops(s, s', e, u) {
      DropLoses(c, s, s', e.i, u);
    }
    if Lost(s', u) {
      NoChildBefore(c, s, s', e, u);
      hide IsChild, Next, DropsAtGate, DropsAtEnqueue;
      if u !in s.seen {
        MarkedByGate(c, s, s', e, u);
      } else {
        var i: nat :| Pending(s, i, u);
        PendingMoves(c, s, s', e, i, u);
      }
    }
  }

  lemma NoChildBefore(c: Config, s: State, s': State, e: Event, u: Url)
    requires Next(c, s, s', e) && forall r :: !IsChild(s', r, u)
    ensures forall r :: !IsChild(s, r, u)
  {
    NextGrows(c, s, s', e);
    hide Next;
    forall r
      ensures !IsChild(s, r, u)
    {
      if InLog(s, r) {
        GrowsLogs(s, s', r);
        assert !IsChild(s', r, u);
      }
    }
  }

  lemma DropLoses(c: Config, s: State, s': State, i: nat, u: Url)
    requires Once(s) && TaskStep(c, s, s', i)
    requires DropsAtGate(s, s', i, u) || DropsAtEnqueue(s, s', i, u)
    ensures Lost(s', u)
  {
    assert Work(c, s, s', i);
    assert s'.logs == s.logs && u in s'.seen;
    assert forall r :: IsChild(s', r, u) ==> IsChild(s, r, u);
    assert forall j :: j != i && Pending(s', j, u) ==> Pending(s, j, u);
    assert !Pending(s', i, u);
  }

  /** Only the gate marks URLs. */
  lemma MarkedByGate(c: Config, s: State, s': State, e: Event, u: Url)
    requires Next(c, s, s', e) && u !in s.seen && u in s'.seen && !(e.EvTask? && Pending(s', e.i, u))
    ensures e.EvTask? && DropsAtGate(s, s', e.i, u)
  {
  }

  /** A pending call stays so until its next step, which writes the child or drops it. */
  lemma PendingMoves(c: Config, s: State, s': State, e: Event, i: nat, u: Url)
    requires Next(c, s, s', e) && Pending(s, i, u)
    ensures if e == EvTask(i) then !Pending(s', i, u) && (DropsAtEnqueue(s, s', i, u) || HasChild(s', u))
            else Pending(s', i, u)
  {
    if e == EvTask(i) {
      PendingSteps(c, s, s', i, u);
    } else {
      OthersLeavePending(c, s, s', e, i, u);
    }
    hide Next, Pending, IsChild;
  }

  lemma OthersLeavePending(c: Config, s: State, s': State, e: Event, i: nat, u: Url)
    requires Next(c, s, s', e) && e != EvTask(i) && Pending(s, i, u)
    ensures Pending(s', i, u)
  {
    hide Work, Send;
    match e
    case EvTask(j) => var base, phase := TaskStepShape(c, s, s', j);
    case EvLostAck(j) =>
      var outcome :| Send(c, s, s', j, outcome);
      SendGrows(c, s, s', j, outcome);
    case _ =>
  }

  lemma PendingSteps(c: Config, s: State, s': State, i: nat, u: Url)
    requires TaskStep(c, s, s', i) && Pending(s, i, u)
    ensures !Pending(s', i, u) && (DropsAtEnqueue(s, s', i, u) || HasChild(s', u))
  {
    assert Work(c, s, s', i);
    if s'.logs != s.logs {
      var links, k := s.tasks[i].phase.links, s.tasks[i].phase.next;
      var e := Entry(Message(links[k], EntryAt(s, s.tasks[i].rec).payload.depth + 1, 0, 0.0), Child(s.tasks[i].rec));
      var p: nat :| p < |s.logs| && s'.logs == Append(s, p, e).logs;
      AppendedRec(s, s', p, e, NextRec(s, p));
      assert IsChild(s', NextRec(s, p), u);
    }
  }

  ghost predicate HasChild(s: State, u: Url) {
    exists r :: IsChild(s, r, u)
  }

  ghost predicate IsPending(s: State, u: Url) {
    exists i: nat :: Pending(s, i, u)
  }

  // ---------------------------------------------------------------- whole runs

  ghost predicate Dropped(ss: seq<State>, es: seq<Event>, u: Url)
    requires |ss| == |es| + 1
  {
    exists k :: 0 <= k < |es| && Drops(ss[k], ss[k + 1], es[k], u)
  }

  /** In every run, whatever crashes and redeliveries it has: a child is lost exactly when some step dropped it. */
  lemma {:induction false} LostIffDropped(c: Config, ss: seq<State>, es: seq<Event>, u: Url)
    requires Run(c, ss, es)
    ensures Lost(Last(ss), u) <==> Dropped(ss, es, u)
    decreases |es|
  {
    if es != [] {
      var n := |es| - 1;
      RunPrefix(c, ss, es);
      RunInv(c, ss[..n + 1], es[..n]);
      LostIffDropped(c, ss[..n + 1], es[..n], u);
      DroppedOneMore(ss, es, u);
      hide Run, Next, Lost, Dropped, Drops, Tasks, Offsets, Attempts, Once;
      if Lost(ss[n], u) {
        LostForever(c, ss[n], ss[n + 1], es[n], u);
      } else {
        NextDrops(c, ss[n], ss[n + 1], es[n], u);
      }
    }
  }

  lemma DroppedOneMore(ss: seq<State>, es: seq<Event>, u: Url)
    requires |ss| == |es| + 1 && es != []
    ensures var n := |es| - 1;
            Dropped(ss, es, u) <==> Dropped(ss[..n + 1], es[..n], u) || Drops(ss[n], ss[n + 1], es[n], u)
  {
    hide Drops;
  }

  /** What becomes of a marked URL: it has its one child record, or it is pending in one call, or a step
      dropped it, and never two of these. */
  lemma FateOfMarked(c: Config, ss: seq<State>, es: seq<Event>, u: Url)
    requires Run(c, ss, es)
    ensures var s := Last(ss);
            && (u in s.seen <==> HasChild(s, u) || IsPending(s, u) || Dropped(ss, es, u))
            && !(HasChild(s, u) && IsPending(s, u)) && !(HasChild(s, u) && Dropped(ss, es, u))
            && !(IsPending(s, u) && Dropped(ss, es, u))
  {
    RunInv(c, ss, es);
    LostIffDropped(c, ss, es, u);
    hide Run, Dropped, IsChild, Pending, Tasks, Offsets, Attempts;
  }

  // ---------------------------------------------------------------- stranded by a crash

  /** The call that is to enqueue `u` belongs to no worker's batch any more: a crash has orphaned it. */
  ghost predicate Stranded(s: State, i: nat, u: Url) {
    Pending(s, i, u) && forall w :: w in s.workers ==> i !in s.workers[w].batch
  }

  /** Only a step of the orphaned call itself can change that, and it decides between child and loss. */
  lemma StrandedStays(c: Config, s: State, s': State, e: Event, i: nat, u: Url)
    requires Inv(c, s) && Next(c, s, s', e) && Stranded(s, i, u)
    ensures if e == EvTask(i) then DropsAtEnqueue(s, s', i, u) || HasChild(s', u)
            else Stranded(s', i, u) && !HasChild(s', u)
  {
    PendingMoves(c, s, s', e, i, u);
    NextKeepsInv(c, s, s', e);
    NoNewBatch(c, s, s', e, i);
    hide Next, Pending, IsChild, Tasks, Offsets, Attempts;
    assert Pending(s', i, u) ==> !HasChild(s', u);
  }

  /** A call that is in no batch gets into none: a redelivery is a new call. */
  lemma NoNewBatch(c: Config, s: State, s': State, e: Event, i: nat)
    requires Next(c, s, s', e) && i < |s.tasks| && forall w :: w in s.workers ==> i !in s.workers[w].batch
    ensures forall w :: w in s'.workers ==> i !in s'.workers[w].batch
  {
    hide Work, Send;
    match e
    case EvTask(j) => var base, phase := TaskStepShape(c, s, s', j);
    case EvLostAck(j) =>
      var outcome :| Send(c, s, s', j, outcome);
      SendLeavesWorkers(c, s, s', j, outcome);
    case _ =>
  }

  lemma SendLeavesWorkers(c: Config, s: State, sent: State, i: nat, outcome: Outcome)
    requires Send(c, s, sent, i, outcome)
    ensures sent.workers == s.workers
  {
  }

  ghost predicate Silent(es: seq<Event>, from: nat, i: nat) {
    forall k :: from <= k < |es| ==> es[k] != EvTask(i)
  }

  /** However often its page is delivered again, a stranded URL is not enqueued unless the orphaned call goes on. */
  lemma {:induction false} StrandedForGood(c: Config, ss: seq<State>, es: seq<Event>, from: nat, upTo: nat, i: nat,
                                           u: Url)
    requires Run(c, ss, es) && from <= upTo <= |es| && Stranded(ss[from], i, u) && Silent(es, from, i)
    ensures Stranded(ss[upTo], i, u) && !HasChild(ss[upTo], u)
    decreases upTo
  {
    assert from < upTo ==> es[upTo - 1] != EvTask(i);
    hide *;
    if from == upTo {
      RunInvAt(c, ss, es, upTo);
      StrandedHasNoChild(c, ss[upTo], i, u);
    } else {
      StrandedForGood(c, ss, es, from, upTo - 1, i, u);
      RunInvAt(c, ss, es, upTo - 1);
      StrandedStays(c, ss[upTo - 1], ss[upTo], es[upTo - 1], i, u);
    }
  }

  lemma StrandedHasNoChild(c: Config, s: State, i: nat, u: Url)
    requires Inv(c, s) && Stranded(s, i, u)
    ensures !HasChild(s, u)
  {
    hide Tasks, Offsets, Attempts, IsChild, Pending;
  }

  lemma RunInvAt(c: Config, ss: seq<State>, es: seq<Event>, k: nat)
    requires Run(c, ss, es) && k <= |es|
    ensures Inv(c, ss[k]) && (k < |es| ==> Next(c, ss[k], ss[k + 1], es[k]))
  {
    assert Run(c, ss[..k + 1], es[..k]) by {
      hide Next;
    }
    RunInv(c, ss[..k + 1], es[..k]);
    hide Inv, Next;
  }

  /** Its worker crashes and the page is delivered to another one. */
  lemma CrashAndRedeliver(c: Config, page: Payload, u: Url) returns (ss: seq<State>, es: seq<Event>)
    requires c == Config([FrontierTopic, RetryTopic], 1, 1) && page.Message? && page.attempts == 0 && page.depth == 0
    ensures Run(c, ss, es)
    ensures Last(ss)
            == State([[Entry(page, External)], []], [0, 0], [1, 0], map[0 := 1], map[0 := IDLE, 1 := Worker(true, {1})],
                              [Task(Rec(0, 0), Enqueueing([u], 0)), Task(Rec(0, 0), Fresh)], [], {u})
  {
    ss, es := LinkMarked(c, page, u);
    hide Run;
    var s := Last(ss);
    var s1 := s.(owner := map[], workers := map[0 := IDLE]);
    Then(c, ss, es, s1, EvCrash(0));
    ss, es := ss + [s1], es + [EvCrash(0)];
    var s2 := s1.(owner := map[0 := 1], position := [0, 0]);
    Then(c, ss, es, s2, EvAssign(0, 1));
    ss, es := ss + [s2], es + [EvAssign(0, 1)];
    var s3 := s2.(position := [1, 0], tasks := s2.tasks + [Task(Rec(0, 0), Fresh)],
                  workers := map[0 := IDLE, 1 := Worker(false, {1})]);
    Then(c, ss, es, s3, EvFetch(1, 0));
    ss, es := ss + [s3], es + [EvFetch(1, 0)];
    var s4 := s3.(workers := map[0 := IDLE, 1 := Worker(true, {1})]);
    Then(c, ss, es, s4, EvBegin(1));
    ss, es := ss + [s4], es + [EvBegin(1)];
  }

  /** It happens: the worker crashes between mark and enqueue, another worker handles the page again, finds
      its link seen and commits. */
  lemma CrashStrands() returns (c: Config, ss: seq<State>, es: seq<Event>, u: Url)
    ensures Run(c, ss, es) && Stranded(Last(ss), 0, u)
    ensures Last(ss).committed == [1, 0] && |Last(ss).tasks| == 2
    ensures Last(ss).tasks[1] == Task(Rec(0, 0), Done(Handled))
  {
    c := Config([FrontierTopic, RetryTopic], 1, 1);
    u := Url("d", "child");
    ss, es := CrashAndRedeliver(c, Message(Url("d", "page"), 0, 0, 0.0), u);
    hide Run;
    var s := Last(ss);
    var s1 := SetPhase(s, 1, AfterProcess(c, 0, Answer(Engine.Result(true, false, [u]))));
    assert Work(c, s, s1, 1);
    Then(c, ss, es, s1, EvTask(1));
    ss, es := ss + [s1], es + [EvTask(1)];
    var s2 := SetPhase(s1, 1, Gating([u], 1));
    assert s1.(seen := s1.seen + {u}) == s1;
    assert Gate(s1, s2, 1, [u], 0) && Work(c, s1, s2, 1);
    Then(c, ss, es, s2, EvTask(1));
    ss, es := ss + [s2], es + [EvTask(1)];
    var s3 := SetPhase(s2, 1, Done(Handled));
    assert Work(c, s2, s3, 1);
    Then(c, ss, es, s3, EvTask(1));
    ss, es := ss + [s3], es + [EvTask(1)];
    var s4 := s3.(committed := [1, 0], workers := map[0 := IDLE, 1 := IDLE]);
    Then(c, ss, es, s4, EvCommit(1));
    ss, es := ss + [s4], es + [EvCommit(1)];
  }
}
