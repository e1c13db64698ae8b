/** No message is lost, no child is enqueued twice, but a child can be lost. */
module DeliveryTheorems {
  import opened Frontier
  import opened Delivery
  import opened DeliverySafety
  import Engine

  /** Across crashes, rebalances and lost acknowledgements: a published record is either still at or
      beyond its committed offset, so that it will be delivered again, or some call completed it with
      an outcome that the logs bear out. */
  lemma NoMessageLost(c: Config, ss: seq<State>, es: seq<Event>, r: Rec)
    requires Run(c, ss, es) && InLog(Last(ss), r)
    ensures var s := Last(ss);
            r.partition < |s.committed|
            && (r.offset >= s.committed[r.partition]
                || exists i :: 0 <= i < |s.tasks| && s.tasks[i].rec == r && s.tasks[i].phase.Done?
                            && Justified(c, s, r, s.tasks[i].phase.outcome))
  {
    hide Justified;
    var s := Last(ss);
    RunInv(c, ss, es);
    if r.offset < s.committed[r.partition] {
      assert Completed(s, Rec(r.partition, r.offset));
      var i :| 0 <= i < |s.tasks| && s.tasks[i].rec == r && s.tasks[i].phase.Done?;
      assert TaskOk(c, s, s.tasks[i]);
    }
  }

  /** A commit only moves forward, so a record that was completed is not forgotten. */
  lemma CommitsAdvance(c: Config, ss: seq<State>, es: seq<Event>, s': State, e: Event, p: nat)
    requires Run(c, ss, es) && Next(c, Last(ss), s', e) && p < |Last(ss).logs|
    ensures p < |s'.committed| && p < |Last(ss).committed| && Last(ss).committed[p] <= s'.committed[p] <= |s'.logs[p]|
  {
    hide Next;
    RunInv(c, ss, es);
    NextOffsets(c, Last(ss), s', e);
    NextGrows(c, Last(ss), s', e);
    NextCommits(c, Last(ss), s', e, p);
  }

  lemma NextCommits(c: Config, s: State, s': State, e: Event, p: nat)
    requires Offsets(s) && Next(c, s, s', e) && p < |s.logs| && |s'.committed| == |s.committed|
    ensures s.committed[p] <= s'.committed[p]
  {
    hide Work, Send, Covered;
    match e
    case EvTask(i) => var base, phase := TaskStepShape(c, s, s', i);
    case EvLostAck(i) =>
      var outcome :| Send(c, s, s', i, outcome);
      SendLeavesOffsets(c, s, s', i, outcome);
    case _ =>
  }

  /** Fleet-wide, under every interleaving and redelivery, a URL is written as a child at most once. */
  lemma ChildAtMostOnce(c: Config, ss: seq<State>, es: seq<Event>, r: Rec, r': Rec)
    requires Run(c, ss, es) && InLog(Last(ss), r) && InLog(Last(ss), r')
    requires EntryAt(Last(ss), r).origin.Child? && EntryAt(Last(ss), r').origin.Child?
    requires EntryAt(Last(ss), r).payload.Message? && EntryAt(Last(ss), r').payload.Message?
    requires EntryAt(Last(ss), r).payload.url == EntryAt(Last(ss), r').payload.url
    ensures r == r'
  {
    RunInv(c, ss, es);
    var u := EntryAt(Last(ss), r).payload.url;
    assert IsChild(Last(ss), r, u) && IsChild(Last(ss), r', u);
  }

  /** Crashes cannot push a message past its retries. */
  lemma AttemptsBounded(c: Config, ss: seq<State>, es: seq<Event>, r: Rec)
    requires Run(c, ss, es) && InLog(Last(ss), r) && EntryAt(Last(ss), r).payload.Message?
    ensures 0 <= EntryAt(Last(ss), r).payload.attempts <= c.maxRetries
  {
    RunInv(c, ss, es);
  }

  // ---------------------------------------------------------------- lost children

  /** Marked as seen, but neither written as a child nor about to be. */
  ghost predicate Lost(s: State, u: Url) {
    && u in s.seen
    && (forall r :: !IsChild(s, r, u))
    && (forall i :: !Pending(s, i, u))
  }

  /** No later delivery brings a lost child back: the seen-set keeps every call from enqueueing it. */
  lemma LostForever(c: Config, s: State, s': State, e: Event, u: Url)
    requires Lost(s, u) && Next(c, s, s', e)
    ensures Lost(s', u)
  {
    hide Work, Send, Grows, Lost;
    match e
    case EvTask(i) =>
      if Work(c, s, s', i) {
        WorkKeepsLost(c, s, s', i, u);
      } else {
        var sent: State, outcome :|
          Send(c, s, sent, i, outcome) && i < |sent.tasks| && s' == SetPhase(sent, i, Done(outcome));
        SendKeepsLost(c, s, sent, i, outcome, u);
      }
    case EvLostAck(i) =>
      var outcome :| Send(c, s, s', i, outcome);
      SendKeepsLost(c, s, s', i, outcome, u);
    case _ =>
      QuietKeepsLost(c, s, s', e, u);
  }

  lemma QuietKeepsLost(c: Config, s: State, s': State, e: Event, u: Url)
    requires Lost(s, u) && Next(c, s, s', e) && !e.EvTask? && !e.EvLostAck?
    ensures Lost(s', u)
  {
    assert forall i :: Pending(s', i, u) ==> Pending(s, i, u);
    if e.EvPublish? {
      forall r
        ensures !IsChild(s', r, u)
      {
        if InLog(s', r) {
          AppendedRec(s, s', e.p, Entry(e.payload, External), r);
          assert !IsChild(s, r, u);
        }
      }
    } else {
      assert forall r :: IsChild(s', r, u) ==> IsChild(s, r, u);
    }
  }

  lemma SendKeepsLost(c: Config, s: State, sent: State, i: nat, outcome: Outcome, u: Url)
    requires Lost(s, u) && Send(c, s, sent, i, outcome)
    ensures Lost(sent, u) && (i < |sent.tasks| ==> Lost(SetPhase(sent, i, Done(outcome)), u))
  {
    assert forall r :: IsChild(sent, r, u) ==> IsChild(s, r, u);
    assert forall j :: Pending(sent, j, u) ==> Pending(s, j, u);
    if i < |sent.tasks| {
      var s' := SetPhase(sent, i, Done(outcome));
      assert forall r :: IsChild(s', r, u) ==> IsChild(sent, r, u);
      assert forall j :: Pending(s', j, u) ==> Pending(sent, j, u);
    }
  }

  lemma WorkKeepsLost(c: Config, s: State, s': State, i: nat, u: Url)
    requires Lost(s, u) && Work(c, s, s', i)
    ensures Lost(s', u)
  {
    WorkNotPending(c, s, s', i, u);
    WorkNoChild(c, s, s', i, u);
    assert s.seen <= s'.seen;
    hide Work, IsChild, Pending;
  }

  lemma WorkNotPending(c: Config, s: State, s': State, i: nat, u: Url)
    requires Lost(s, u) && Work(c, s, s', i)
    ensures forall j :: !Pending(s', j, u)
  {
    hide IsChild;
    assert forall j :: j != i && Pending(s', j, u) ==> Pending(s, j, u);
    assert !Pending(s', i, u);
  }

  lemma WorkNoChild(c: Config, s: State, s': State, i: nat, u: Url)
    requires Lost(s, u) && Work(c, s, s', i)
    ensures forall r :: !IsChild(s', r, u)
  {
    if s.tasks[i].phase.Enqueueing? && s'.logs != s.logs {
      var links, k := s.tasks[i].phase.links, s.tasks[i].phase.next;
      assert !Pending(s, i, u);
      var e := Entry(Message(links[k], EntryAt(s, s.tasks[i].rec).payload.depth + 1, 0, 0.0), Child(s.tasks[i].rec));
      var p: nat :| p < |s.logs| && s'.logs == Append(s, p, e).logs;
      OtherChild(s, s', p, e, u);
    } else {
      assert s'.logs == s.logs;
      assert forall r :: IsChild(s', r, u) ==> IsChild(s, r, u);
    }
  }

  lemma OtherChild(s: State, s': State, p: nat, e: Entry, u: Url)
    requires p < |s.logs| && s'.logs == Append(s, p, e).logs && e.payload.Message? && e.payload.url != u
    requires forall r :: !IsChild(s, r, u)
    ensures forall r :: !IsChild(s', r, u)
  {
    forall r
      ensures !IsChild(s', r, u)
    {
      assert !IsChild(s, r, u);
      if InLog(s', r) {
        AppendedRec(s, s', p, e, r);
      }
    }
  }

  lemma Then(c: Config, ss: seq<State>, es: seq<Event>, s': State, e: Event)
    requires Run(c, ss, es) && Next(c, Last(ss), s', e)
    ensures Run(c, ss + [s'], es + [e]) && Last(ss + [s']) == s'
  {
  }

  /** A worker is about to handle a freshly published page. */
  lemma PageAboutToBeHandled(c: Config, page: Payload) returns (ss: seq<State>, es: seq<Event>)
    requires c == Config([FrontierTopic, RetryTopic], 1, 1) && page.Message? && page.attempts == 0
    ensures Run(c, ss, es) && forall k :: 0 <= k < |es| ==> Calm(es[k])
    ensures Last(ss) == State([[Entry(page, External)], []], [0, 0], [1, 0], map[0 := 0], map[0 := Worker(true, {0})],
                              [Task(Rec(0, 0), Fresh)], [], {})
  {
    var s0 := Init(c);
    var s1 := Append(s0, 0, Entry(page, External));
    assert s1.logs[0] == [Entry(page, External)] && s1.logs[1] == [];
    var s2 := s1.(owner := s1.owner[0 := 0], position := s1.position[0 := s1.committed[0]]);
    var s3 := s2.(position := s2.position[0 := s2.position[0] + 1],
                  tasks := s2.tasks + [Task(Rec(0, s2.position[0]), Fresh)],
                  workers := s2.workers[0 := Worker(false, WorkerOf(s2, 0).batch + {|s2.tasks|})]);
    var s4 := s3.(workers := s3.workers[0 := WorkerOf(s3, 0).(handling := true)]);
    ss, es := [s0], [];
    Then(c, ss, es, s1, EvPublish(0, page));
    ss, es := ss + [s1], es + [EvPublish(0, page)];
    Then(c, ss, es, s2, EvAssign(0, 0));
    ss, es := ss + [s2], es + [EvAssign(0, 0)];
    Then(c, ss, es, s3, EvFetch(0, 0));
    ss, es := ss + [s3], es + [EvFetch(0, 0)];
    Then(c, ss, es, s4, EvBegin(0));
    ss, es := ss + [s4], es + [EvBegin(0)];
  }

  /** A call has marked the link of its page and is about to enqueue it. */
  lemma LinkMarked(c: Config, page: Payload, u: Url) returns (ss: seq<State>, es: seq<Event>)
    requires c == Config([FrontierTopic, RetryTopic], 1, 1) && page.Message? && page.attempts == 0 && page.depth == 0
    ensures Run(c, ss, es) && forall k :: 0 <= k < |es| ==> Calm(es[k])
    ensures Last(ss) == State([[Entry(page, External)], []], [0, 0], [1, 0], map[0 := 0], map[0 := Worker(true, {0})],
                              [Task(Rec(0, 0), Enqueueing([u], 0))], [], {u})
  {
    ss, es := PageAboutToBeHandled(c, page);
    hide Run;
    var s := Last(ss);
    var s1 := SetPhase(s, 0, AfterProcess(c, 0, Answer(Engine.Result(true, false, [u]))));
    assert Work(c, s, s1, 0);
    Then(c, ss, es, s1, EvTask(0));
    ss, es := ss + [s1], es + [EvTask(0)];
    var s2 := SetPhase(s1.(seen := s1.seen + {u}), 0, Enqueueing([u], 0));
    assert Gate(s1, s2, 0, [u], 0) && Work(c, s1, s2, 0);
    Then(c, ss, es, s2, EvTask(0));
    ss, es := ss + [s2], es + [EvTask(0)];
  }

  /** It happens without any crash: the page is fetched, its link marked, the enqueue fails. */
  lemma ChildCanBeLost() returns (c: Config, ss: seq<State>, es: seq<Event>, u: Url)
    ensures Run(c, ss, es) && (forall k :: 0 <= k < |es| ==> Calm(es[k])) && Lost(Last(ss), u)
  {
    c := Config([FrontierTopic, RetryTopic], 1, 1);
    u := Url("d", "child");
    ss, es := LinkMarked(c, Message(Url("d", "page"), 0, 0, 0.0), u);
    hide Run, Lost;
    var s := Last(ss);
    var s1 := SetPhase(s, 0, Retrying);
    assert Enqueue(c, s, s1, 0, [u], 0, 0) && Work(c, s, s1, 0);
    Then(c, ss, es, s1, EvTask(0));
    ss, es := ss + [s1], es + [EvTask(0)];
    NowLost(s1, u);
  }

  lemma NowLost(s: State, u: Url)
    requires u in s.seen && s.tasks == [Task(Rec(0, 0), Retrying)]
    requires |s.logs| == 2 && |s.logs[0]| == 1 && s.logs[0][0].origin == External && s.logs[1] == []
    ensures Lost(s, u)
  {
  }
}
