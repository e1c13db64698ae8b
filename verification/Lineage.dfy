/** Runs without crashes, rebalances or lost acknowledgements: every message leaves one chain of copies. */
module Lineage {
  import opened Delivery
  import opened DeliverySafety

  ghost predicate CalmRun(c: Config, ss: seq<State>, es: seq<Event>) {
    Run(c, ss, es) && forall k :: 0 <= k < |es| ==> Calm(es[k])
  }

  // ---------------------------------------------------------------- one call per record

  ghost predicate OneCall(s: State) {
    && |s.position| == |s.logs| == |s.committed|
    && (forall i, j :: 0 <= i < j < |s.tasks| ==> s.tasks[i].rec != s.tasks[j].rec)
    && (forall i :: 0 <= i < |s.tasks| ==>
          s.tasks[i].rec.partition < |s.logs| && s.tasks[i].rec.offset < s.position[s.tasks[i].rec.partition])
    && (forall p: nat :: p < |s.logs| && p !in s.owner ==> s.position[p] == s.committed[p])
  }

  lemma NextOneCall(c: Config, s: State, s': State, e: Event)
    requires OneCall(s) && Next(c, s, s', e) && Calm(e)
    ensures OneCall(s')
  {
    hide Work, Send, Grows;
    match e
    case EvTask(i) =>
      var base, phase := TaskStepShape(c, s, s', i);
      assert |s'.logs| == |s.logs| by { TaskStepGrows(c, s, s', e); NextLogCount(s, s'); }
      assert forall j :: 0 <= j < |s.tasks| ==> s'.tasks[j].rec == s.tasks[j].rec;
    case _ =>
  }

  // ---------------------------------------------------------------- forwarding

  /** Call of `q` finished by writing the copy `r`. */
  ghost predicate Forwards(s: State, q: Rec, r: Rec) {
    exists i :: 0 <= i < |s.tasks| && s.tasks[i].rec == q
             && (s.tasks[i].phase == Done(Republished(r)) || s.tasks[i].phase == Done(Retried(r)))
  }

  /** Each copy was written by the finished call of its origin; the first message of a chain is fresh. */
  ghost predicate Chained(c: Config, s: State) {
    && (forall r :: InLog(s, r) && EntryAt(s, r).origin.Forward? ==> Forwards(s, EntryAt(s, r).origin.of, r))
    && (forall r :: InLog(s, r) && EntryAt(s, r).payload.Message? && !EntryAt(s, r).origin.Forward? ==>
          On(c, r.partition, FrontierTopic) && EntryAt(s, r).payload.attempts == 0)
  }

  /** A record is new in `s'` only if its origin is accounted for. */
  lemma ChainedFrame(c: Config, s: State, s': State)
    requires Chained(c, s) && Grows(s, s')
    requires forall r :: InLog(s', r) && !InLog(s, r) ==>
               if EntryAt(s', r).origin.Forward? then Forwards(s', EntryAt(s', r).origin.of, r)
               else EntryAt(s', r).payload.Message? ==>
                 On(c, r.partition, FrontierTopic) && EntryAt(s', r).payload.attempts == 0
    ensures Chained(c, s')
  {
  }

  lemma SendChained(c: Config, s: State, sent: State, i: nat, outcome: Outcome)
    requires Chained(c, s) && Send(c, s, sent, i, outcome) && i < |sent.tasks|
    requires Grows(s, SetPhase(sent, i, Done(outcome)))
    ensures Chained(c, SetPhase(sent, i, Done(outcome)))
  {
    hide Chained;
    var s' := SetPhase(sent, i, Done(outcome));
    SendGrows(c, s, sent, i, outcome);
    forall r | InLog(s', r) && !InLog(s, r)
      ensures EntryAt(s', r).origin == Forward(s.tasks[i].rec) && Forwards(s', s.tasks[i].rec, r)
    {
      var p: nat, e :| p < |s.logs| && sent == Append(s, p, e) && e.origin == Forward(s.tasks[i].rec)
                       && (outcome == Republished(NextRec(s, p)) || outcome == Retried(NextRec(s, p)));
      AppendedRec(s, s', p, e, r);
      assert s'.tasks[i] == Task(s.tasks[i].rec, Done(outcome));
    }
    ChainedFrame(c, s, s');
  }

  lemma WorkChained(c: Config, s: State, s': State, i: nat)
    requires Chained(c, s) && Work(c, s, s', i) && Grows(s, s')
    ensures Chained(c, s')
  {
    hide Chained, Forwards;
    forall r | InLog(s', r) && !InLog(s, r)
      ensures !EntryAt(s', r).origin.Forward? && EntryAt(s', r).payload.Message?
      ensures On(c, r.partition, FrontierTopic) && EntryAt(s', r).payload.attempts == 0
    {
      assert s.tasks[i].phase.Enqueueing?;
    }
    ChainedFrame(c, s, s');
  }

  lemma NextChained(c: Config, s: State, s': State, e: Event)
    requires Chained(c, s) && Next(c, s, s', e) && Calm(e)
    ensures Chained(c, s')
  {
    hide Work, Send, Grows, Chained, Forwards;
    NextGrows(c, s, s', e);
    match e
    case EvTask(i) =>
      if Work(c, s, s', i) {
        WorkChained(c, s, s', i);
      } else {
        var sent: State, outcome :|
          Send(c, s, sent, i, outcome) && i < |sent.tasks| && s' == SetPhase(sent, i, Done(outcome));
        SendChained(c, s, sent, i, outcome);
      }
    case EvPublish(p, payload) =>
      forall r | InLog(s', r) && !InLog(s, r)
        ensures EntryAt(s', r) == Entry(payload, External) && r.partition == p
      {
        AppendedRec(s, s', p, Entry(payload, External), r);
      }
      ChainedFrame(c, s, s');
    case _ =>
      ChainedFrame(c, s, s');
  }

  ghost predicate CalmInv(c: Config, s: State) {
    Tasks(c, s) && Attempts(c, s) && OneCall(s) && Chained(c, s)
  }

  lemma CalmInit(c: Config)
    ensures CalmInv(c, Init(c))
  {
  }

  lemma CalmNextKeepsInv(c: Config, s: State, s': State, e: Event)
    requires CalmInv(c, s) && Next(c, s, s', e) && Calm(e)
    ensures CalmInv(c, s')
  {
    hide Tasks, Attempts, OneCall, Chained, Next;
    NextTasks(c, s, s', e);
    NextAttempts(c, s, s', e);
    NextOneCall(c, s, s', e);
    NextChained(c, s, s', e);
  }

  lemma {:induction false} CalmRunInv(c: Config, ss: seq<State>, es: seq<Event>)
    requires CalmRun(c, ss, es)
    ensures CalmInv(c, Last(ss))
    decreases |es|
  {
    if es == [] {
      CalmInit(c);
    } else {
      var n := |es| - 1;
      RunPrefix(c, ss, es);
      CalmRunInv(c, ss[..n + 1], es[..n]);
      hide CalmInv, Next;
      CalmNextKeepsInv(c, ss[n], ss[n + 1], es[n]);
    }
  }

  // ---------------------------------------------------------------- chains

  ghost predicate IsMessage(s: State, r: Rec) {
    InLog(s, r) && EntryAt(s, r).payload.Message?
  }

  /** Twice the attempts that are left, plus one for a copy that waits in the retry topic. */
  ghost function Rank(c: Config, s: State, r: Rec): int
    requires IsMessage(s, r)
  {
    2 * (c.maxRetries - EntryAt(s, r).payload.attempts) + if On(c, r.partition, RetryTopic) then 1 else 0
  }

  lemma RankRange(c: Config, s: State, r: Rec)
    requires Attempts(c, s) && IsMessage(s, r)
    ensures 0 <= Rank(c, s, r) <= 2 * c.maxRetries + 1
  {
  }

  /** A forward goes to a message ranked exactly one lower, which names its origin. */
  lemma ForwardsDown(c: Config, s: State, q: Rec, r: Rec)
    requires CalmInv(c, s) && Forwards(s, q, r)
    ensures IsMessage(s, q) && IsMessage(s, r) && EntryAt(s, r).origin == Forward(q)
    ensures Rank(c, s, r) == Rank(c, s, q) - 1
  {
    var i :| 0 <= i < |s.tasks| && s.tasks[i].rec == q
          && (s.tasks[i].phase == Done(Republished(r)) || s.tasks[i].phase == Done(Retried(r)));
    assert TaskOk(c, s, s.tasks[i]);
  }

  lemma ForwardsOnce(c: Config, s: State, q: Rec, r: Rec, r': Rec)
    requires OneCall(s) && Forwards(s, q, r) && Forwards(s, q, r')
    ensures r == r'
  {
  }

  /** The first message of the chain that `r` belongs to. */
  ghost function Root(c: Config, s: State, r: Rec): (root: Rec)
    requires CalmInv(c, s) && IsMessage(s, r)
    ensures IsMessage(s, root) && !EntryAt(s, root).origin.Forward?
    ensures Rank(c, s, root) >= Rank(c, s, r)
    decreases 2 * c.maxRetries + 1 - Rank(c, s, r)
  {
    if EntryAt(s, r).origin.Forward? then
      var q := EntryAt(s, r).origin.of;
      assert Forwards(s, q, r);
      ForwardsDown(c, s, q, r);
      RankRange(c, s, q);
      Root(c, s, q)
    else r
  }

  ghost predicate SameChain(c: Config, s: State, r: Rec, r': Rec)
    requires CalmInv(c, s)
  {
    IsMessage(s, r) && IsMessage(s, r') && Root(c, s, r) == Root(c, s, r')
  }

  /** Two records of one chain with one rank are one record. */
  lemma {:induction false} RankDetermines(c: Config, s: State, r: Rec, r': Rec)
    requires CalmInv(c, s) && SameChain(c, s, r, r') && Rank(c, s, r) == Rank(c, s, r')
    ensures r == r'
    decreases 2 * c.maxRetries + 1 - Rank(c, s, r)
  {
    RankRange(c, s, r);
    if EntryAt(s, r).origin.Forward? {
      var q := EntryAt(s, r).origin.of;
      assert Forwards(s, q, r);
      ForwardsDown(c, s, q, r);
      if EntryAt(s, r').origin.Forward? {
        var q' := EntryAt(s, r').origin.of;
        assert Forwards(s, q', r');
        ForwardsDown(c, s, q', r');
        RankDetermines(c, s, q, q');
        ForwardsOnce(c, s, q, r, r');
      }
    } else if EntryAt(s, r').origin.Forward? {
      var q' := EntryAt(s, r').origin.of;
      assert Forwards(s, q', r');
      ForwardsDown(c, s, q', r');
    }
  }

  /** A chain has a record of every rank between its records and its root; all but the given one are forwarded. */
  lemma {:induction false} Ancestor(c: Config, s: State, r: Rec, rank: int) returns (a: Rec)
    requires CalmInv(c, s) && IsMessage(s, r) && Rank(c, s, r) <= rank <= Rank(c, s, Root(c, s, r))
    ensures SameChain(c, s, a, r) && Rank(c, s, a) == rank
    ensures if rank == Rank(c, s, r) then a == r else exists next :: Forwards(s, a, next)
    decreases rank - Rank(c, s, r)
  {
    hide Tasks, Attempts, OneCall, Forwards;
    if rank == Rank(c, s, r) {
      a := r;
    } else {
      var q := EntryAt(s, r).origin.of;
      assert Forwards(s, q, r);
      ForwardsDown(c, s, q, r);
      a := Ancestor(c, s, q, rank);
    }
  }

  /** The end of a chain: not forwarded, so still live or ended for good. */
  ghost predicate IsEnd(s: State, r: Rec) {
    forall next :: !Forwards(s, r, next)
  }

  lemma {:induction false} ChainEnds(c: Config, s: State, r: Rec) returns (end: Rec)
    requires CalmInv(c, s) && IsMessage(s, r)
    ensures SameChain(c, s, end, r) && IsEnd(s, end)
    decreases Rank(c, s, r)
  {
    RankRange(c, s, r);
    if next :| Forwards(s, r, next) {
      ForwardsDown(c, s, r, next);
      RankRange(c, s, next);
      end := ChainEnds(c, s, next);
    } else {
      end := r;
    }
  }

  lemma OneEnd(c: Config, s: State, r: Rec, r': Rec)
    requires CalmInv(c, s) && SameChain(c, s, r, r') && IsEnd(s, r) && IsEnd(s, r')
    ensures r == r'
  {
    hide CalmInv, Forwards, Rank;
    if Rank(c, s, r) < Rank(c, s, r') {
      var a := Ancestor(c, s, r, Rank(c, s, r'));
      RankDetermines(c, s, a, r');
    } else if Rank(c, s, r') < Rank(c, s, r) {
      var a := Ancestor(c, s, r', Rank(c, s, r));
      RankDetermines(c, s, a, r);
    } else {
      RankDetermines(c, s, r, r');
    }
  }

  /** No call has finished with this record. */
  ghost predicate Live(s: State, r: Rec) {
    forall i :: 0 <= i < |s.tasks| && s.tasks[i].rec == r ==> !s.tasks[i].phase.Done?
  }

  ghost predicate EndedAs(s: State, r: Rec, outcome: Outcome) {
    exists i :: 0 <= i < |s.tasks| && s.tasks[i].rec == r && s.tasks[i].phase == Done(outcome)
  }

  /** Every message is one of a chain of copies with exactly one end: the one live copy, or the one
      place where it ended for good (handled, too deep, or dead-lettered after its last attempt). */
  lemma OneLiveCopyOrOutcome(c: Config, ss: seq<State>, es: seq<Event>, r: Rec)
    requires CalmRun(c, ss, es) && IsMessage(Last(ss), r)
    ensures CalmInv(c, Last(ss))
    ensures exists end :: ChainEnd(c, Last(ss), r, end)
    ensures forall end, end' :: ChainEnd(c, Last(ss), r, end) && ChainEnd(c, Last(ss), r, end') ==> end == end'
  {
    CalmRunInv(c, ss, es);
    var s := Last(ss);
    hide CalmInv, Run;
    var end := ChainEnds(c, s, r);
    EndIsLiveOrEnded(c, s, end);
    assert ChainEnd(c, s, r, end);
    forall e, e' | ChainEnd(c, s, r, e) && ChainEnd(c, s, r, e')
      ensures e == e'
    {
      OneEnd(c, s, e, e');
    }
  }

  ghost predicate ChainEnd(c: Config, s: State, r: Rec, end: Rec)
    requires CalmInv(c, s)
  {
    && SameChain(c, s, end, r) && IsEnd(s, end)
    && (Live(s, end) || EndedAs(s, end, TooDeep) || EndedAs(s, end, Handled)
        || exists k :: EndedAs(s, end, Dead(k)) && EntryAt(s, end).payload.attempts == c.maxRetries)
  }

  lemma EndIsLiveOrEnded(c: Config, s: State, end: Rec)
    requires CalmInv(c, s) && IsMessage(s, end) && IsEnd(s, end)
    ensures ChainEnd(c, s, end, end)
  {
    hide OneCall, Chained, Rank, Root;
    if i :| 0 <= i < |s.tasks| && s.tasks[i].rec == end && s.tasks[i].phase.Done? {
      assert TaskOk(c, s, s.tasks[i]);
      var outcome := s.tasks[i].phase.outcome;
      assert EndedAs(s, end, outcome);
      assert outcome.Republished? || outcome.Retried? ==> Forwards(s, end, outcome.to);
    }
  }

  // ---------------------------------------------------------------- how often a message is processed

  /** The calls that process a copy of `r` from the frontier topic. */
  ghost function Attempted(c: Config, s: State, r: Rec): set<nat>
    requires CalmInv(c, s) && IsMessage(s, r)
  {
    set i: nat | i < |s.tasks| && On(c, s.tasks[i].rec.partition, FrontierTopic) && SameChain(c, s, s.tasks[i].rec, r)
  }

  ghost function AttemptOf(s: State, i: nat): int
    requires i < |s.tasks| && IsMessage(s, s.tasks[i].rec)
  {
    EntryAt(s, s.tasks[i].rec).payload.attempts
  }

  /** Different calls of one chain make different attempts. */
  lemma AttemptsDiffer(c: Config, s: State, r: Rec, i: nat, j: nat)
    requires CalmInv(c, s) && IsMessage(s, r) && i in Attempted(c, s, r) && j in Attempted(c, s, r)
    requires AttemptOf(s, i) == AttemptOf(s, j)
    ensures i == j
  {
    RankDetermines(c, s, s.tasks[i].rec, s.tasks[j].rec);
  }

  lemma {:induction false} CountByAttempt(c: Config, s: State, r: Rec, calls: set<nat>, n: nat)
    requires CalmInv(c, s) && IsMessage(s, r) && calls <= Attempted(c, s, r)
    requires forall i :: i in calls ==> 0 <= AttemptOf(s, i) < n
    ensures |calls| <= n
  {
    hide CalmInv;
    if n == 0 {
      assert calls == {};
    } else if i :| i in calls && AttemptOf(s, i) == n - 1 {
      forall j | j in calls && AttemptOf(s, j) == n - 1
        ensures j == i
      {
        AttemptsDiffer(c, s, r, i, j);
      }
      CountByAttempt(c, s, r, calls - {i}, n - 1);
    } else {
      CountByAttempt(c, s, r, calls, n - 1);
    }
  }

  /** A message is processed at most `max_retries + 1` times. */
  lemma ProcessedAtMost(c: Config, ss: seq<State>, es: seq<Event>, r: Rec)
    requires CalmRun(c, ss, es) && IsMessage(Last(ss), r)
    ensures CalmInv(c, Last(ss)) && |Attempted(c, Last(ss), r)| <= c.maxRetries + 1
  {
    CalmRunInv(c, ss, es);
    var s := Last(ss);
    hide CalmInv, Run;
    forall i | i in Attempted(c, s, r)
      ensures 0 <= AttemptOf(s, i) < c.maxRetries + 1
    {
      AttemptRange(c, s, s.tasks[i].rec);
    }
    CountByAttempt(c, s, r, Attempted(c, s, r), c.maxRetries + 1);
  }

  /** The calls counted for a message are those of its copies on the frontier: of the record itself, and of
      whatever it was forwarded from or to. */
  lemma AttemptsCounted(c: Config, s: State, q: Rec, r: Rec)
    requires CalmInv(c, s) && IsMessage(s, r)
    ensures forall i :: 0 <= i < |s.tasks| && s.tasks[i].rec == r && On(c, r.partition, FrontierTopic) ==>
              i in Attempted(c, s, r)
    ensures Forwards(s, q, r) ==> IsMessage(s, q) && Attempted(c, s, q) == Attempted(c, s, r)
  {
    if Forwards(s, q, r) {
      ForwardsDown(c, s, q, r);
      assert Root(c, s, r) == Root(c, s, q);
    }
  }

  lemma AttemptRange(c: Config, s: State, r: Rec)
    requires CalmInv(c, s) && IsMessage(s, r)
    ensures 0 <= EntryAt(s, r).payload.attempts <= c.maxRetries
  {
  }

  /** The call of this record failed and sent it to the retry topic. */
  ghost predicate FailedOnce(s: State, r: Rec) {
    exists retry :: EndedAs(s, r, Retried(retry))
  }

  /** What ends in the dead-letter queue failed at its last attempt, and every earlier attempt was made. */
  lemma DeadAfterAllAttempts(c: Config, ss: seq<State>, es: seq<Event>, r: Rec, k: nat, attempts: nat)
    requires CalmRun(c, ss, es) && IsMessage(Last(ss), r) && EndedAs(Last(ss), r, Dead(k))
    ensures CalmInv(c, Last(ss)) && EntryAt(Last(ss), r).payload.attempts == c.maxRetries
    ensures attempts <= c.maxRetries ==>
              exists a :: SameChain(c, Last(ss), a, r) && On(c, a.partition, FrontierTopic)
                       && EntryAt(Last(ss), a).payload.attempts == attempts
                       && (attempts < c.maxRetries ==> FailedOnce(Last(ss), a))
  {
    CalmRunInv(c, ss, es);
    var s := Last(ss);
    var i :| 0 <= i < |s.tasks| && s.tasks[i].rec == r && s.tasks[i].phase == Done(Dead(k));
    assert TaskOk(c, s, s.tasks[i]);
    if attempts <= c.maxRetries {
      var a := EarlierAttempt(c, s, r, attempts);
    }
  }

  /** A failed call ends with one send: to the dead-letter queue if and only if that was the last attempt,
      and otherwise to the retry topic. */
  lemma FailedCallEnds(c: Config, ss: seq<State>, es: seq<Event>, s': State, i: nat)
    requires Run(c, ss, es) && Next(c, Last(ss), s', EvTask(i))
    requires i < |Last(ss).tasks| && Last(ss).tasks[i].phase.Retrying?
    ensures var r := Last(ss).tasks[i].rec;
            && IsMessage(Last(ss), r) && i < |s'.tasks| && s'.tasks[i].rec == r && s'.tasks[i].phase.Done?
            && (s'.tasks[i].phase.outcome.Dead? <==> EntryAt(Last(ss), r).payload.attempts == c.maxRetries)
            && (s'.tasks[i].phase.outcome.Retried? <==> EntryAt(Last(ss), r).payload.attempts < c.maxRetries)
  {
    DeliverySafety.RunInv(c, ss, es);
    hide Offsets, Once, Run;
  }

  /** An even rank is that of a copy on the frontier. */
  lemma EvenRankIsFrontier(c: Config, s: State, a: Rec)
    requires CalmInv(c, s) && IsMessage(s, a) && Rank(c, s, a) % 2 == 0
    ensures On(c, a.partition, FrontierTopic)
    ensures Rank(c, s, a) == 2 * (c.maxRetries - EntryAt(s, a).payload.attempts)
  {
    hide OneCall, Chained, Attempts;
    assert On(c, a.partition, FrontierTopic) || On(c, a.partition, RetryTopic);
  }

  lemma RootRank(c: Config, s: State, r: Rec)
    requires CalmInv(c, s) && IsMessage(s, r)
    ensures Rank(c, s, Root(c, s, r)) == 2 * c.maxRetries
  {
    hide OneCall, Tasks, Attempts;
    var root := Root(c, s, r);
    assert On(c, root.partition, FrontierTopic) && EntryAt(s, root).payload.attempts == 0;
  }

  lemma RankOfFrontier(c: Config, s: State, r: Rec)
    requires CalmInv(c, s) && IsMessage(s, r) && On(c, r.partition, FrontierTopic)
    ensures Rank(c, s, r) == 2 * (c.maxRetries - EntryAt(s, r).payload.attempts)
    ensures 0 <= EntryAt(s, r).payload.attempts <= c.maxRetries
  {
  }

  lemma FrontierForwardFailed(c: Config, s: State, a: Rec, next: Rec)
    requires CalmInv(c, s) && Forwards(s, a, next) && On(c, a.partition, FrontierTopic)
    ensures FailedOnce(s, a)
  {
    hide OneCall, Chained, Attempts;
    var i :| 0 <= i < |s.tasks| && s.tasks[i].rec == a
             && (s.tasks[i].phase == Done(Republished(next)) || s.tasks[i].phase == Done(Retried(next)));
    assert TaskOk(c, s, s.tasks[i]);
    assert EndedAs(s, a, Retried(next));
  }

  /** The copy that made a given earlier attempt. */
  lemma EarlierAttempt(c: Config, s: State, r: Rec, attempts: nat) returns (a: Rec)
    requires CalmInv(c, s) && IsMessage(s, r) && On(c, r.partition, FrontierTopic)
    requires attempts <= EntryAt(s, r).payload.attempts
    ensures SameChain(c, s, a, r) && On(c, a.partition, FrontierTopic)
    ensures EntryAt(s, a).payload.attempts == attempts
    ensures attempts < EntryAt(s, r).payload.attempts ==> FailedOnce(s, a)
  {
    hide CalmInv, Forwards, FailedOnce, Root, Rank, On;
    RootRank(c, s, r);
    RankOfFrontier(c, s, r);
    a := Ancestor(c, s, r, 2 * (c.maxRetries - attempts));
    EvenRankIsFrontier(c, s, a);
    if attempts < EntryAt(s, r).payload.attempts {
      var next :| Forwards(s, a, next);
      FrontierForwardFailed(c, s, a, next);
    }
  }
}
