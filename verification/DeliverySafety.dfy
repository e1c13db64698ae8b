/** What every step of the delivery protocol keeps, crashes and rebalances included. */
module DeliverySafety {
  import opened Frontier
  import opened Delivery

  // ---------------------------------------------------------------- how a state grows

  /** Logs, dead letters and calls are only ever added to, and a finished call stays as it is. */
  ghost predicate Grows(s: State, s': State) {
    && |s.logs| == |s'.logs|
    && (forall p :: 0 <= p < |s.logs| ==> s.logs[p] <= s'.logs[p])
    && s.dlq <= s'.dlq && s.seen <= s'.seen && |s.tasks| <= |s'.tasks|
    && forall i :: 0 <= i < |s.tasks| ==>
         s.tasks[i].rec == s'.tasks[i].rec && (s.tasks[i].phase.Done? ==> s.tasks[i] == s'.tasks[i])
  }

  lemma GrowsLogs(s: State, s': State, r: Rec)
    requires Grows(s, s') && InLog(s, r)
    ensures InLog(s', r) && EntryAt(s', r) == EntryAt(s, r)
  {
  }

  lemma SendGrows(c: Config, s: State, sent: State, i: nat, outcome: Outcome)
    requires Send(c, s, sent, i, outcome)
    ensures Grows(s, sent) && sent.tasks == s.tasks
  {
  }

  /** A step before the last send: perhaps a mark in the seen-set or a child record, then the new phase. */
  lemma WorkShape(c: Config, s: State, s': State, i: nat) returns (base: State, phase: Phase)
    requires Work(c, s, s', i)
    ensures base.tasks == s.tasks && Grows(s, base) && s' == SetPhase(base, i, phase) && !s.tasks[i].phase.Done?
    ensures base == s.(logs := base.logs, seen := base.seen)
  {
    phase := s'.tasks[i].phase;
    match s.tasks[i].phase
    case Gating(links, k) =>
      base := if k < |links| && s'.seen != s.seen then s.(seen := s.seen + {links[k]}) else s;
    case Enqueueing(links, k) =>
      base := s.(logs := s'.logs);
    case _ =>
      base := s;
  }

  lemma SetPhaseGrows(s: State, i: nat, phase: Phase)
    requires i < |s.tasks| && !s.tasks[i].phase.Done?
    ensures Grows(s, SetPhase(s, i, phase))
  {
  }

  lemma GrowsTransitive(a: State, b: State, c: State)
    requires Grows(a, b) && Grows(b, c)
    ensures Grows(a, c)
  {
  }

  /** A step of a call: something is written, then the call changes phase. */
  lemma TaskStepShape(c: Config, s: State, s': State, i: nat) returns (base: State, phase: Phase)
    requires TaskStep(c, s, s', i)
    ensures i < |s.tasks| && !s.tasks[i].phase.Done?
    ensures base.tasks == s.tasks && Grows(s, base) && s' == SetPhase(base, i, phase)
    ensures base == s.(logs := base.logs, seen := base.seen, dlq := base.dlq)
    ensures Work(c, s, s', i) || (phase.Done? && Send(c, s, base, i, phase.outcome))
  {
    hide Grows;
    if Work(c, s, s', i) {
      base, phase := WorkShape(c, s, s', i);
    } else {
      var sent: State, outcome :|
        Send(c, s, sent, i, outcome) && i < |sent.tasks| && s' == SetPhase(sent, i, Done(outcome));
      SendGrows(c, s, sent, i, outcome);
      base, phase := sent, Done(outcome);
    }
  }

  lemma NextGrows(c: Config, s: State, s': State, e: Event)
    requires Next(c, s, s', e)
    ensures Grows(s, s')
  {
    match e
    case EvTask(i) =>
      hide *;
      TaskStepGrows(c, s, s', e);
    case EvLostAck(i) =>
      var outcome :| Send(c, s, s', i, outcome);
      SendGrows(c, s, s', i, outcome);
    case _ =>
  }

  lemma TaskStepGrows(c: Config, s: State, s': State, e: Event)
    requires e.EvTask? && Next(c, s, s', e)
    ensures Grows(s, s')
  {
    hide Work, Send;
    var base, phase := TaskStepShape(c, s, s', e.i);
    SetPhaseGrows(base, e.i, phase);
    GrowsTransitive(s, base, s');
  }

  // ---------------------------------------------------------------- outcomes

  /** The completed outcome of a record is backed by the logs, where nothing is ever removed. */
  ghost predicate Justified(c: Config, s: State, r: Rec, outcome: Outcome)
    requires InLog(s, r)
  {
    var m := EntryAt(s, r).payload;
    match outcome
    case Undecodable => m.Garbage?
    case TooDeep => m.Message? && On(c, r.partition, FrontierTopic) && m.depth > c.maxDepth
    case Handled => m.Message? && On(c, r.partition, FrontierTopic) && m.depth <= c.maxDepth
    case Republished(to) =>
      && m.Message? && On(c, r.partition, RetryTopic)
      && On(c, to.partition, FrontierTopic) && InLog(s, to) && EntryAt(s, to) == Entry(m.(notBefore := 0.0), Forward(r))
    case Retried(to) =>
      && m.Message? && On(c, r.partition, FrontierTopic) && m.attempts < c.maxRetries
      && On(c, to.partition, RetryTopic) && InLog(s, to)
      && exists now :: EntryAt(s, to) == Entry(RetryOf(m, now), Forward(r))
    case Dead(k) =>
      && m.Message? && On(c, r.partition, FrontierTopic) && m.attempts >= c.maxRetries
      && k < |s.dlq| && s.dlq[k] == m
  }

  /** A call that has neither finished nor just begun works on a frontier message within the depth limit. */
  ghost predicate TaskOk(c: Config, s: State, t: Task) {
    && InLog(s, t.rec)
    && match t.phase
       case Fresh => true
       case Done(outcome) => Justified(c, s, t.rec, outcome)
       case _ =>
         var m := EntryAt(s, t.rec).payload;
         m.Message? && On(c, t.rec.partition, FrontierTopic) && m.depth <= c.maxDepth
  }

  ghost predicate Tasks(c: Config, s: State) {
    && |s.logs| == |c.topics|
    && forall i :: 0 <= i < |s.tasks| ==> TaskOk(c, s, s.tasks[i])
  }

  lemma TaskOkGrows(c: Config, s: State, s': State, t: Task)
    requires Grows(s, s') && TaskOk(c, s, t)
    ensures TaskOk(c, s', t)
  {
  }

  lemma SendJustified(c: Config, s: State, sent: State, i: nat, outcome: Outcome)
    requires Tasks(c, s) && Send(c, s, sent, i, outcome)
    ensures TaskOk(c, sent, Task(s.tasks[i].rec, Done(outcome)))
  {
  }

  lemma WorkOk(c: Config, s: State, s': State, i: nat)
    requires Tasks(c, s) && Work(c, s, s', i)
    ensures i < |s'.tasks| && TaskOk(c, s', s'.tasks[i])
  {
    var t := s.tasks[i];
    assert TaskOk(c, s, t);
    var base, phase := WorkShape(c, s, s', i);
    GrowsLogs(s, base, t.rec);
    assert EntryAt(s', t.rec) == EntryAt(s, t.rec);
    assert s'.tasks[i] == Task(t.rec, phase);
  }

  lemma NextTasks(c: Config, s: State, s': State, e: Event)
    requires Tasks(c, s) && Next(c, s, s', e)
    ensures Tasks(c, s')
  {
    hide TaskOk, Grows, Send, Work;
    NextGrows(c, s, s', e);
    assert |s'.logs| == |s.logs| by { NextLogCount(s, s'); }
    forall i | 0 <= i < |s'.tasks|
      ensures TaskOk(c, s', s'.tasks[i])
    {
      if i < |s.tasks| && s'.tasks[i] == s.tasks[i] {
        TaskOkGrows(c, s, s', s.tasks[i]);
      } else {
        NewTaskOk(c, s, s', e, i);
      }
    }
  }

  lemma NextLogCount(s: State, s': State)
    requires Grows(s, s')
    ensures |s'.logs| == |s.logs|
  {
  }

  lemma NewTaskOk(c: Config, s: State, s': State, e: Event, i: nat)
    requires Tasks(c, s) && Next(c, s, s', e) && i < |s'.tasks|
    requires i >= |s.tasks| || s'.tasks[i] != s.tasks[i]
    ensures TaskOk(c, s', s'.tasks[i])
  {
    hide Justified, Grows, Work, Send;
    match e
    case EvTask(j) =>
      var base, phase := TaskStepShape(c, s, s', j);
      if Work(c, s, s', j) {
        WorkOk(c, s, s', j);
      } else {
        SendJustified(c, s, base, j, phase.outcome);
        SetPhaseGrows(base, j, phase);
        TaskOkGrows(c, base, s', Task(s.tasks[j].rec, phase));
      }
    case EvLostAck(j) =>
      var outcome :| Send(c, s, s', j, outcome);
      SendGrows(c, s, s', j, outcome);
    case _ =>
  }

  // ---------------------------------------------------------------- offsets

  ghost predicate InBatch(s: State, w: nat, r: Rec) {
    exists i :: i in WorkerOf(s, w).batch && i < |s.tasks| && s.tasks[i].rec == r
  }

  /** Some call of `_handle` has seen this record through. */
  ghost predicate Completed(s: State, r: Rec) {
    exists i :: 0 <= i < |s.tasks| && s.tasks[i].rec == r && s.tasks[i].phase.Done?
  }

  ghost predicate Shape(s: State) {
    && |s.committed| == |s.logs| == |s.position|
    && (forall p :: 0 <= p < |s.logs| ==> s.committed[p] <= |s.logs[p]|)
    && (forall p :: p in s.owner ==> p < |s.logs| && s.committed[p] <= s.position[p] <= |s.logs[p]|)
    && (forall w, i :: w in s.workers && i in s.workers[w].batch ==> i < |s.tasks|)
  }

  /** What an owner has fetched but not committed is in its batch; what is committed is completed. */
  ghost predicate Covered(s: State)
    requires Shape(s)
  {
    && (forall p, o: nat :: p in s.owner && s.committed[p] <= o < s.position[p] ==> InBatch(s, s.owner[p], Rec(p, o)))
    && (forall p: nat, o: nat :: p < |s.logs| && o < s.committed[p] ==> Completed(s, Rec(p, o)))
  }

  ghost predicate Offsets(s: State) {
    Shape(s) && Covered(s)
  }

  lemma CompletedGrows(s: State, s': State, r: Rec)
    requires Grows(s, s') && Completed(s, r)
    ensures Completed(s', r)
  {
  }

  lemma InBatchGrows(s: State, s': State, w: nat, r: Rec)
    requires Grows(s, s') && InBatch(s, w, r) && WorkerOf(s, w).batch <= WorkerOf(s', w).batch
    ensures InBatch(s', w, r)
  {
  }

  /** Any step that leaves offsets and batches alone, and lets partitions change hands only to nobody. */
  lemma OffsetsFrame(s: State, s': State)
    requires Offsets(s) && Grows(s, s')
    requires s'.committed == s.committed && s'.position == s.position
    requires forall p :: p in s'.owner ==> p in s.owner && s'.owner[p] == s.owner[p]
    requires forall w :: w in s'.workers ==> s'.workers[w].batch <= WorkerOf(s, w).batch
    requires forall p :: p in s'.owner ==> WorkerOf(s', s'.owner[p]).batch == WorkerOf(s, s'.owner[p]).batch
    ensures Offsets(s')
  {
    hide InBatch, Completed;
    forall p: nat, o: nat | p in s'.owner && s'.committed[p] <= o < s'.position[p]
      ensures InBatch(s', s'.owner[p], Rec(p, o))
    {
      InBatchGrows(s, s', s.owner[p], Rec(p, o));
    }
    forall p: nat, o: nat | p < |s'.logs| && o < s'.committed[p]
      ensures Completed(s', Rec(p, o))
    {
      CompletedGrows(s, s', Rec(p, o));
    }
  }

  lemma FetchOffsets(s: State, s': State, w: nat, p: nat)
    requires Offsets(s) && Fetch(s, s', w, p)
    ensures Offsets(s')
  {
    hide InBatch, Completed;
    var mine := Rec(p, s.position[p]);
    assert InBatch(s', w, mine) by {
      assert |s.tasks| in WorkerOf(s', w).batch && s'.tasks[|s.tasks|].rec == mine;
      InBatchIntro(s', w, mine, |s.tasks|);
    }
    assert Grows(s, s');
    forall q: nat, o: nat | q in s'.owner && s'.committed[q] <= o < s'.position[q]
      ensures InBatch(s', s'.owner[q], Rec(q, o))
    {
      if Rec(q, o) != mine {
        InBatchGrows(s, s', s.owner[q], Rec(q, o));
      }
    }
    forall q: nat, o: nat | q < |s'.logs| && o < s'.committed[q]
      ensures Completed(s', Rec(q, o))
    {
      CompletedGrows(s, s', Rec(q, o));
    }
  }

  lemma InBatchIntro(s: State, w: nat, r: Rec, i: nat)
    requires i in WorkerOf(s, w).batch && i < |s.tasks| && s.tasks[i].rec == r
    ensures InBatch(s, w, r)
  {
  }

  lemma AssignOffsets(s: State, s': State, p: nat, w: nat)
    requires Offsets(s) && Assign(s, s', p, w)
    ensures Offsets(s')
  {
    forall q: nat, o: nat | q in s'.owner && s'.committed[q] <= o < s'.position[q]
      ensures InBatch(s', s'.owner[q], Rec(q, o))
    {
      assert InBatch(s, s.owner[q], Rec(q, o));
    }
    forall q: nat, o: nat | q < |s'.logs| && o < s'.committed[q]
      ensures Completed(s', Rec(q, o))
    {
      assert Completed(s, Rec(q, o));
    }
  }

  lemma CommitOffsets(s: State, s': State, w: nat)
    requires Offsets(s) && Commit(s, s', w)
    ensures Offsets(s')
  {
    forall q: nat, o: nat | q in s'.owner && s'.committed[q] <= o < s'.position[q]
      ensures InBatch(s', s'.owner[q], Rec(q, o))
    {
      assert s.owner[q] != w && InBatch(s, s.owner[q], Rec(q, o));
    }
    forall q: nat, o: nat | q < |s'.logs| && o < s'.committed[q]
      ensures Completed(s', Rec(q, o))
    {
      if o >= s.committed[q] {
        assert InBatch(s, w, Rec(q, o));
        var i :| i in WorkerOf(s, w).batch && i < |s.tasks| && s.tasks[i].rec == Rec(q, o);
        assert s'.tasks[i].phase.Done?;
      } else {
        assert Completed(s, Rec(q, o));
      }
    }
  }

  lemma NextOffsets(c: Config, s: State, s': State, e: Event)
    requires Offsets(s) && Next(c, s, s', e)
    ensures Offsets(s')
  {
    hide Offsets, Shape, Covered, Grows, Work, Send, Fetch, Commit, Assign;
    NextGrows(c, s, s', e);
    match e
    case EvAssign(p, w) => AssignOffsets(s, s', p, w);
    case EvFetch(w, p) => FetchOffsets(s, s', w, p);
    case EvCommit(w) => CommitOffsets(s, s', w);
    case EvTask(i) =>
      var base, phase := TaskStepShape(c, s, s', i);
      OffsetsFrame(s, s');
    case EvLostAck(i) =>
      var outcome :| Send(c, s, s', i, outcome);
      SendLeavesOffsets(c, s, s', i, outcome);
      OffsetsFrame(s, s');
    case _ =>
      OffsetsFrame(s, s');
  }

  lemma SendLeavesOffsets(c: Config, s: State, sent: State, i: nat, outcome: Outcome)
    requires Send(c, s, sent, i, outcome)
    ensures sent == s.(logs := sent.logs, dlq := sent.dlq)
  {
  }

  // ---------------------------------------------------------------- retries are bounded

  ghost predicate Attempts(c: Config, s: State) {
    forall r :: InLog(s, r) && EntryAt(s, r).payload.Message? ==> 0 <= EntryAt(s, r).payload.attempts <= c.maxRetries
  }

  lemma SendAttempts(c: Config, s: State, sent: State, i: nat, outcome: Outcome)
    requires Attempts(c, s) && Send(c, s, sent, i, outcome)
    ensures Attempts(c, sent)
  {
    forall r | InLog(sent, r) && EntryAt(sent, r).payload.Message?
      ensures 0 <= EntryAt(sent, r).payload.attempts <= c.maxRetries
    {
      if InLog(s, r) {
        assert EntryAt(sent, r) == EntryAt(s, r);
      } else {
        assert InLog(s, s.tasks[i].rec);
      }
    }
  }

  lemma WorkAttempts(c: Config, s: State, s': State, i: nat)
    requires Attempts(c, s) && Work(c, s, s', i)
    ensures Attempts(c, s')
  {
    forall r | InLog(s', r) && EntryAt(s', r).payload.Message?
      ensures 0 <= EntryAt(s', r).payload.attempts <= c.maxRetries
    {
      assert InLog(s, r) ==> EntryAt(s', r) == EntryAt(s, r);
    }
  }

  lemma NextAttempts(c: Config, s: State, s': State, e: Event)
    requires Attempts(c, s) && Next(c, s, s', e)
    ensures Attempts(c, s')
  {
    hide Work, Send;
    match e
    case EvTask(i) =>
      if Work(c, s, s', i) {
        WorkAttempts(c, s, s', i);
      } else {
        var sent: State, outcome :|
          Send(c, s, sent, i, outcome) && i < |sent.tasks| && s' == SetPhase(sent, i, Done(outcome));
        SendAttempts(c, s, sent, i, outcome);
        assert forall r :: InLog(s', r) ==> InLog(sent, r) && EntryAt(s', r) == EntryAt(sent, r);
      }
    case EvLostAck(i) =>
      var outcome :| Send(c, s, s', i, outcome);
      SendAttempts(c, s, s', i, outcome);
    case EvPublish(p, payload) =>
      assert forall r :: InLog(s', r) ==>
          EntryAt(s', r).payload == payload || (InLog(s, r) && EntryAt(s', r) == EntryAt(s, r));
    case _ =>
      assert forall r :: InLog(s', r) ==> InLog(s, r) && EntryAt(s', r) == EntryAt(s, r);
  }

  // ---------------------------------------------------------------- children

  ghost predicate IsChild(s: State, r: Rec, u: Url) {
    InLog(s, r) && EntryAt(s, r).origin.Child? && EntryAt(s, r).payload.Message? && EntryAt(s, r).payload.url == u
  }

  /** Call `i` has been told that `u` is new and is about to enqueue it. */
  ghost predicate Pending(s: State, i: nat, u: Url) {
    && i < |s.tasks| && s.tasks[i].phase.Enqueueing?
    && s.tasks[i].phase.next < |s.tasks[i].phase.links| && s.tasks[i].phase.links[s.tasks[i].phase.next] == u
  }

  /** The seen-set lets each URL through to one call, which enqueues it at most once. */
  ghost predicate Once(s: State) {
    && (forall r, r', u :: IsChild(s, r, u) && IsChild(s, r', u) ==> r == r')
    && (forall r, u :: IsChild(s, r, u) ==> u in s.seen)
    && (forall i, u :: Pending(s, i, u) ==> u in s.seen)
    && (forall i, r, u :: Pending(s, i, u) ==> !IsChild(s, r, u))
    && (forall i, j, u :: Pending(s, i, u) && Pending(s, j, u) ==> i == j)
  }

  /** Any step that writes no child record and makes no call pending. */
  lemma OnceFrame(s: State, s': State)
    requires Once(s) && s.seen <= s'.seen
    requires forall r, u :: IsChild(s', r, u) ==> IsChild(s, r, u)
    requires forall i, u :: Pending(s', i, u) ==> Pending(s, i, u)
    ensures Once(s')
  {
  }

  lemma AppendedRec(s: State, s': State, p: nat, e: Entry, r: Rec)
    requires p < |s.logs| && s'.logs == Append(s, p, e).logs && InLog(s', r)
    ensures if r == NextRec(s, p) then EntryAt(s', r) == e else InLog(s, r) && EntryAt(s', r) == EntryAt(s, r)
  {
  }

  /** The pending call writes its child record. */
  lemma EnqueueOnce(s: State, s': State, i: nat, u: Url, p: nat, e: Entry)
    requires Once(s) && Pending(s, i, u) && e.payload.Message? && e.payload.url == u
    requires p < |s.logs| && s'.logs == Append(s, p, e).logs && s'.seen == s.seen
    requires forall j, v :: Pending(s', j, v) ==> Pending(s, j, v) && j != i
    ensures Once(s')
  {
    forall r, v | IsChild(s', r, v)
      ensures IsChild(s, r, v) || (v == u && r == NextRec(s, p))
    {
      AppendedRec(s, s', p, e, r);
    }
  }

  lemma GateOnce(s: State, s': State, i: nat, links: seq<Url>, k: nat)
    requires Once(s) && i < |s.tasks| && s.tasks[i].phase == Gating(links, k) && k < |links| && Gate(s, s', i, links, k)
    ensures Once(s')
  {
    assert forall r, u :: IsChild(s', r, u) <==> IsChild(s, r, u);
    assert forall j, u :: j != i ==> (Pending(s', j, u) <==> Pending(s, j, u));
    if s'.tasks[i].phase.Enqueueing? {
      assert Pending(s', i, links[k]) && links[k] !in s.seen;
    }
  }

  /** A step that leaves the logs and the seen-set alone and does not make its call pending. */
  lemma QuietOnce(s: State, s': State, i: nat, phase: Phase)
    requires Once(s) && i < |s.tasks| && s' == SetPhase(s, i, phase) && !phase.Enqueueing?
    ensures Once(s')
  {
    assert forall r, u :: IsChild(s', r, u) ==> IsChild(s, r, u);
    assert forall j, u :: Pending(s', j, u) ==> Pending(s, j, u);
    OnceFrame(s, s');
  }

  lemma WorkOnce(c: Config, s: State, s': State, i: nat)
    requires Once(s) && Work(c, s, s', i)
    ensures Once(s')
  {
    hide Once, Pending, IsChild;
    var t := s.tasks[i];
    match t.phase
    case Gating(links, k) =>
      if k < |links| {
        GateOnce(s, s', i, links, k);
      } else {
        QuietOnce(s, s', i, s'.tasks[i].phase);
      }
    case Enqueueing(links, k) =>
      EnqueuePhaseOnce(c, s, s', i, links, k, EntryAt(s, t.rec).payload.depth);
    case Fresh =>
      QuietOnce(s, s', i, s'.tasks[i].phase);
    case _ =>
  }

  lemma EnqueuePhaseOnce(c: Config, s: State, s': State, i: nat, links: seq<Url>, k: nat, depth: int)
    requires Once(s) && i < |s.tasks| && s.tasks[i].phase == Enqueueing(links, k) && k < |links|
    requires Enqueue(c, s, s', i, links, k, depth)
    ensures Once(s')
  {
    hide Once, IsChild;
    assert Pending(s, i, links[k]) && forall u :: !Pending(s', i, u);
    assert forall j, u :: Pending(s', j, u) ==> Pending(s, j, u);
    if s' == SetPhase(s, i, Retrying) {
      QuietOnce(s, s', i, Retrying);
    } else {
      var e := Entry(Message(links[k], depth + 1, 0, 0.0), Child(s.tasks[i].rec));
      var p: nat :| p < |s.logs| && s'.logs == Append(s, p, e).logs;
      EnqueueOnce(s, s', i, links[k], p, e);
    }
  }

  lemma SendOnce(c: Config, s: State, sent: State, i: nat, outcome: Outcome)
    requires Once(s) && Send(c, s, sent, i, outcome)
    ensures Once(sent) && (i < |sent.tasks| ==> Once(SetPhase(sent, i, Done(outcome))))
  {
    assert forall r, u :: IsChild(sent, r, u) ==> IsChild(s, r, u);
    OnceFrame(s, sent);
    if i < |sent.tasks| {
      var s' := SetPhase(sent, i, Done(outcome));
      assert forall r, u :: IsChild(s', r, u) ==> IsChild(sent, r, u);
      assert forall j, u :: Pending(s', j, u) ==> Pending(sent, j, u);
      OnceFrame(sent, s');
    }
  }

  lemma NextOnce(c: Config, s: State, s': State, e: Event)
    requires Once(s) && Next(c, s, s', e)
    ensures Once(s')
  {
    hide Once, Work, Send;
    match e
    case EvTask(i) =>
      if Work(c, s, s', i) {
        WorkOnce(c, s, s', i);
      } else {
        var sent: State, outcome :|
          Send(c, s, sent, i, outcome) && i < |sent.tasks| && s' == SetPhase(sent, i, Done(outcome));
        SendOnce(c, s, sent, i, outcome);
      }
    case EvLostAck(i) =>
      var outcome :| Send(c, s, s', i, outcome);
      SendOnce(c, s, s', i, outcome);
    case _ =>
      assert forall r, u :: IsChild(s', r, u) ==> IsChild(s, r, u);
      assert forall i, u :: Pending(s', i, u) ==> Pending(s, i, u);
      OnceFrame(s, s');
  }

  // ---------------------------------------------------------------- every run

  ghost predicate Inv(c: Config, s: State) {
    Tasks(c, s) && Offsets(s) && Attempts(c, s) && Once(s)
  }

  lemma InitInv(c: Config)
    ensures Inv(c, Init(c))
  {
  }

  lemma NextKeepsInv(c: Config, s: State, s': State, e: Event)
    requires Inv(c, s) && Next(c, s, s', e)
    ensures Inv(c, s')
  {
    hide Tasks, Offsets, Attempts, Once, Next;
    NextTasks(c, s, s', e);
    NextOffsets(c, s, s', e);
    NextAttempts(c, s, s', e);
    NextOnce(c, s, s', e);
  }

  /** In every run: crashes, rebalances and lost acknowledgements included. */
  lemma {:induction false} RunInv(c: Config, ss: seq<State>, es: seq<Event>)
    requires Run(c, ss, es)
    ensures Inv(c, Last(ss))
    decreases |es|
  {
    if es == [] {
      InitInv(c);
    } else {
      var n := |es| - 1;
      RunPrefix(c, ss, es);
      RunInv(c, ss[..n + 1], es[..n]);
      hide Inv, Next;
      NextKeepsInv(c, ss[n], ss[n + 1], es[n]);
    }
  }

  lemma RunPrefix(c: Config, ss: seq<State>, es: seq<Event>)
    requires Run(c, ss, es) && es != []
    ensures var n := |es| - 1; Run(c, ss[..n + 1], es[..n]) && Next(c, ss[n], ss[n + 1], es[n])
  {
  }
}
