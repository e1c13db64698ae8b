/** Where delivery ends: a calm run that cannot go on has handled and committed everything. */
module DeliveryCompletion {
  import opened Delivery
  import opened DeliverySafety
  import opened Lineage
  import opened DeliveryWork

  /** Every unfinished call belongs to exactly one batch, and whoever enqueues has a link to enqueue. */
  ghost predicate Batched(s: State) {
    && (forall i :: 0 <= i < |s.tasks| && !s.tasks[i].phase.Done? ==> exists w: nat :: Holds(s, w, i))
    && (forall w: nat, i: nat :: Holds(s, w, i) ==> i < |s.tasks|)
    && (forall w: nat, v: nat, i: nat :: Holds(s, w, i) && Holds(s, v, i) ==> w == v)
    && forall i :: 0 <= i < |s.tasks| && s.tasks[i].phase.Enqueueing?
        ==> s.tasks[i].phase.next < |s.tasks[i].phase.links|
  }

  ghost predicate Holds(s: State, w: nat, i: nat) {
    w in s.workers && i in s.workers[w].batch
  }

  lemma NextBatched(c: Config, s: State, s': State, e: Event)
    requires Batched(s) && Next(c, s, s', e) && Calm(e)
    ensures Batched(s')
  {
    match e
    case EvTask(i) => TaskBatched(c, s, s', i);
    case EvFetch(w, p) => FetchBatched(s, s', w, p);
    case EvBegin(w) =>
      assert forall v: nat, i: nat :: Holds(s', v, i) <==> Holds(s, v, i);
    case EvCommit(w) => CommitBatched(s, s', w);
    case EvPublish(p, payload) =>
      assert forall v: nat, i: nat :: Holds(s', v, i) <==> Holds(s, v, i);
    case EvAssign(p, w) =>
      assert forall v: nat, i: nat :: Holds(s', v, i) <==> Holds(s, v, i);
    case _ =>
  }

  lemma TaskBatched(c: Config, s: State, s': State, i: nat)
    requires Batched(s) && TaskStep(c, s, s', i)
    ensures Batched(s')
  {
    var base, phase := TaskStepShape(c, s, s', i);
    assert phase.Enqueueing? ==> phase.next < |phase.links| by {
      if Work(c, s, s', i) {
        assert s'.tasks[i].phase == phase;
      }
    }
    hide Work, Send, Grows, Started;
    assert forall v: nat, j: nat :: Holds(s', v, j) <==> Holds(s, v, j);
  }

  lemma FetchBatched(s: State, s': State, w: nat, p: nat)
    requires Batched(s) && Fetch(s, s', w, p)
    ensures Batched(s')
  {
    var n := |s.tasks|;
    assert forall v: nat, j: nat :: Holds(s', v, j) <==> Holds(s, v, j) || (v == w && j == n);
    assert Holds(s', w, n);
  }

  lemma CommitBatched(s: State, s': State, w: nat)
    requires Batched(s) && Commit(s, s', w)
    ensures Batched(s')
  {
    assert forall v: nat, j: nat :: Holds(s', v, j) <==> Holds(s, v, j) && v != w;
  }

  lemma {:induction false} RunBatched(c: Config, ss: seq<State>, es: seq<Event>)
    requires CalmRun(c, ss, es)
    ensures Batched(Last(ss))
    decreases |es|
  {
    if es != [] {
      var n := |es| - 1;
      RunPrefix(c, ss, es);
      RunBatched(c, ss[..n + 1], es[..n]);
      hide Run, Next, Batched;
      NextBatched(c, ss[n], ss[n + 1], es[n]);
    }
  }

  // ---------------------------------------------------------------- whatever is left can go on

  ghost predicate CanGoOn(c: Config, s: State) {
    exists s', e :: Inner(e) && Next(c, s, s', e)
  }

  /** Both topics have partitions. */
  ghost predicate HasTopics(c: Config) {
    (exists p: nat :: On(c, p, FrontierTopic)) && exists p: nat :: On(c, p, RetryTopic)
  }

  lemma CallCanStep(c: Config, s: State, i: nat)
    requires Tasks(c, s) && Batched(s) && HasTopics(c) && i < |s.tasks| && !s.tasks[i].phase.Done? && Started(s, i)
    ensures CanGoOn(c, s)
  {
    var t := s.tasks[i];
    assert TaskOk(c, s, t);
    var m := EntryAt(s, t.rec).payload;
    if t.phase.Retrying? || (t.phase.Fresh? && m.Message? && On(c, t.rec.partition, RetryTopic)) {
      SendCanStep(c, s, i);
    } else {
      var s' := WorkStep(c, s, i);
      assert Next(c, s, s', EvTask(i));
    }
  }

  lemma WorkStep(c: Config, s: State, i: nat) returns (s': State)
    requires Tasks(c, s) && Batched(s) && i < |s.tasks| && !s.tasks[i].phase.Done? && !s.tasks[i].phase.Retrying?
    requires TaskOk(c, s, s.tasks[i])
    requires var m := EntryAt(s, s.tasks[i].rec).payload;
             s.tasks[i].phase.Fresh? && m.Message? ==> !On(c, s.tasks[i].rec.partition, RetryTopic)
    ensures Work(c, s, s', i)
  {
    var t := s.tasks[i];
    var m := EntryAt(s, t.rec).payload;
    match t.phase
    case Fresh =>
      if m.Garbage? {
        s' := SetPhase(s, i, Done(Undecodable));
      } else if m.depth > c.maxDepth {
        s' := SetPhase(s, i, Done(TooDeep));
      } else {
        s' := SetPhase(s, i, AfterProcess(c, m.depth, FetchError));
      }
    case Gating(links, k) =>
      if k >= |links| {
        s' := SetPhase(s, i, Done(Handled));
      } else {
        s' := SetPhase(s, i, Retrying);
        assert Gate(s, s', i, links, k);
      }
    case Enqueueing(links, k) =>
      s' := SetPhase(s, i, Retrying);
      assert Enqueue(c, s, s', i, links, k, m.depth);
  }

  lemma SendCanStep(c: Config, s: State, i: nat)
    requires Tasks(c, s) && HasTopics(c) && i < |s.tasks| && Started(s, i) && TaskOk(c, s, s.tasks[i])
    requires var m := EntryAt(s, s.tasks[i].rec).payload;
             s.tasks[i].phase.Retrying?
             || (s.tasks[i].phase.Fresh? && m.Message? && On(c, s.tasks[i].rec.partition, RetryTopic))
    ensures CanGoOn(c, s)
  {
    var t := s.tasks[i];
    var m := EntryAt(s, t.rec).payload;
    var p: nat :| On(c, p, FrontierTopic);
    var q: nat :| On(c, q, RetryTopic);
    var sent, outcome;
    if t.phase.Fresh? {
      sent, outcome := Append(s, p, Entry(m.(notBefore := 0.0), Forward(t.rec))), Republished(NextRec(s, p));
    } else if m.attempts >= c.maxRetries {
      sent, outcome := s.(dlq := s.dlq + [m]), Dead(|s.dlq|);
    } else {
      sent, outcome := Append(s, q, Entry(RetryOf(m, 0.0), Forward(t.rec))), Retried(NextRec(s, q));
    }
    assert Send(c, s, sent, i, outcome);
    var s' := SetPhase(sent, i, Done(outcome));
    assert TaskStep(c, s, s', i);
    assert Next(c, s, s', EvTask(i));
  }

  lemma BatchCanGoOn(c: Config, s: State, w: nat)
    requires CalmInv(c, s) && Offsets(s) && Batched(s) && HasTopics(c) && w in s.workers && BatchSteps(s.workers[w]) > 0
    ensures CanGoOn(c, s)
  {
    hide OneCall, Chained, Attempts;
    if !s.workers[w].handling {
      var s' := s.(workers := s.workers[w := WorkerOf(s, w).(handling := true)]);
      assert Next(c, s, s', EvBegin(w));
    } else if i :| i in s.workers[w].batch && (i >= |s.tasks| || !s.tasks[i].phase.Done?) {
      assert Holds(s, w, i);
      assert Started(s, i) by {
        forall v | v in s.workers && i in s.workers[v].batch
          ensures s.workers[v].handling
        {
          assert Holds(s, v, i);
        }
      }
      CallCanStep(c, s, i);
    } else {
      var committed := seq(|s.committed|, p requires 0 <= p < |s.committed| =>
                                if p in s.owner && s.owner[p] == w then s.position[p] else s.committed[p]);
      var s' := s.(committed := committed, workers := s.workers[w := IDLE]);
      assert Next(c, s, s', EvCommit(w));
    }
  }

  /** Any work that is left can be gone on with. */
  lemma LiveCanGoOn(c: Config, s: State, t: Token)
    requires CalmInv(c, s) && Offsets(s) && Batched(s) && HasTopics(c) && ToDo(s, t)
    ensures CanGoOn(c, s)
  {
    match t
    case Unowned(p) => AssignCanStep(c, s, p);
    case Batch(w, n) => BatchCanGoOn(c, s, w);
    case Waiting(i) =>
      var w: nat :| Holds(s, w, i);
      BatchCanGoOn(c, s, w);
    case Step(i, n) =>
      var w: nat :| Holds(s, w, i);
      BatchCanGoOn(c, s, w);
    case Unread(p, o) =>
      if p !in s.owner {
        AssignCanStep(c, s, p);
      } else if s.owner[p] in s.workers && BatchSteps(s.workers[s.owner[p]]) > 0 {
        BatchCanGoOn(c, s, s.owner[p]);
      } else {
        FetchCanStep(c, s, s.owner[p], p);
      }
  }

  lemma AssignCanStep(c: Config, s: State, p: nat)
    requires Offsets(s) && p < |s.logs| && p !in s.owner
    ensures CanGoOn(c, s)
  {
    var s' := s.(owner := s.owner[p := 0], position := s.position[p := s.committed[p]]);
    assert Next(c, s, s', EvAssign(p, 0));
  }

  lemma FetchCanStep(c: Config, s: State, w: nat, p: nat)
    requires p in s.owner && s.owner[p] == w && p < |s.logs| && p < |s.position| && s.position[p] < |s.logs[p]|
    requires w in s.workers ==> BatchSteps(s.workers[w]) == 0
    ensures CanGoOn(c, s)
  {
    var s' := s.(position := s.position[p := s.position[p] + 1],
                 tasks := s.tasks + [Task(Rec(p, s.position[p]), Fresh)],
                 workers := s.workers[w := Worker(false, WorkerOf(s, w).batch + {|s.tasks|})]);
    assert Next(c, s, s', EvFetch(w, p));
  }

  /** Everything is handled: each record of each partition is committed, and each call is finished. */
  ghost predicate AllDone(s: State) {
    && |s.committed| == |s.logs| && (forall p :: 0 <= p < |s.logs| ==> s.committed[p] == |s.logs[p]|)
    && forall i :: 0 <= i < |s.tasks| ==> s.tasks[i].phase.Done?
  }

  /** A calm run can go on without new messages unless everything is handled and every partition is assigned.
      With `NoEndlessDelivery`: left alone, delivery ends with everything handled and committed. */
  lemma StuckIsDone(c: Config, ss: seq<State>, es: seq<Event>)
    requires CalmRun(c, ss, es) && HasTopics(c)
    ensures CanGoOn(c, Last(ss)) || AllDone(Last(ss))
  {
    var s := Last(ss);
    CalmRunInv(c, ss, es);
    RunInv(c, ss, es);
    RunBatched(c, ss, es);
    hide CalmRun, Run, CalmInv, Once, Attempts, Tasks, CanGoOn, Batched;
    if !CanGoOn(c, s) {
      forall t
        ensures !ToDo(s, t)
      {
        if ToDo(s, t) {
          LiveCanGoOn(c, s, t);
        }
      }
      NothingLeft(s);
    }
  }

  lemma NothingLeft(s: State)
    requires Offsets(s) && Batched(s) && forall t :: !ToDo(s, t)
    ensures AllDone(s)
  {
    forall p | 0 <= p < |s.logs|
      ensures s.committed[p] == |s.logs[p]|
    {
      assert !ToDo(s, Unowned(p)) && !ToDo(s, Unread(p, s.position[p]));
      if s.committed[p] < s.position[p] {
        assert InBatch(s, s.owner[p], Rec(p, s.committed[p]));
        FullBatch(s, s.owner[p]);
      }
    }
    forall i | 0 <= i < |s.tasks|
      ensures s.tasks[i].phase.Done?
    {
      if !s.tasks[i].phase.Done? {
        var w: nat :| Holds(s, w, i);
        FullBatch(s, w);
      }
    }
  }

  lemma FullBatch(s: State, w: nat)
    requires WorkerOf(s, w).batch != {}
    ensures ToDo(s, Batch(w, 0))
  {
  }
}
