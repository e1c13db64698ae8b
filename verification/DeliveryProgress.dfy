/** Delivery comes to an end: without crashes, rebalances, lost acknowledgements and new messages from
    outside, every run is over after finitely many steps, however many links the pages have. */
module DeliveryProgress {
  import opened Delivery
  import opened DeliverySafety
  import opened Lineage
  import opened DeliveryWork
  import opened Descent

  // ---------------------------------------------------------------- every step goes down

  lemma NextConsumes(c: Config, lo: int, s: State, s': State, e: Event) returns (done: Token)
    requires Ready(c, lo, s) && Next(c, s, s', e) && Inner(e)
    ensures Consumes(c, lo, s, s', done)
  {
    NextGrows(c, s, s', e);
    hide Ready, Grows, Consumes, TaskStep;
    match e
    case EvAssign(p, w) =>
      AssignConsumes(c, lo, s, s', p, w);
      done := Unowned(p);
    case EvFetch(w, p) =>
      FetchConsumes(c, lo, s, s', w, p);
      done := Unread(p, s.position[p]);
    case EvBegin(w) =>
      BeginConsumes(c, lo, s, s', w);
      done := Batch(w, 1);
    case EvCommit(w) =>
      CommitConsumes(c, lo, s, s', w);
      done := Batch(w, 0);
    case EvTask(i) =>
      TaskConsumes(c, lo, s, s', i);
      done := UsedUp(s, i);
  }

  ghost function Tokens(s: State): set<Token> {
    (set p, o | 0 <= p < |s.logs| && 0 <= o < |s.logs[p]| && ToDo(s, Unread(p, o)) :: Unread(p, o))
    + (set i | 0 <= i < |s.tasks| && s.tasks[i].phase.Fresh? :: Waiting(i))
    + (set i, n | 0 <= i < |s.tasks| && 0 <= n < StepsLeft(s.tasks[i].phase) :: Step(i, n))
    + (set p | 0 <= p < |s.logs| && p !in s.owner :: Unowned(p))
    + (set w, n | w in s.workers && 0 <= n < BatchSteps(s.workers[w]) :: Batch(w, n))
  }

  lemma TokensAreLive(s: State, t: Token)
    ensures t in Tokens(s) <==> ToDo(s, t)
  {
  }

  ghost function TokensAt(c: Config, lo: int, s: State, k: int): set<Token> {
    set t | t in Tokens(s) && Index(c, lo, s, t) == k
  }

  /** How much work of each index there is. */
  ghost function Work2Do(c: Config, lo: int, s: State): (v: seq<nat>)
    ensures |v| == if Top(c, lo) < 0 then 0 else Top(c, lo) + 1
    ensures forall k :: 0 <= k < |v| ==> v[k] == |TokensAt(c, lo, s, k)|
  {
    seq(if Top(c, lo) < 0 then 0 else Top(c, lo) + 1, k => |TokensAt(c, lo, s, k)|)
  }

  lemma IndexInRange(c: Config, lo: int, s: State, t: Token)
    requires Ready(c, lo, s) && ToDo(s, t)
    ensures 0 <= Index(c, lo, s, t) <= Top(c, lo)
  {
    PlaceInRange(c, 0, Levels(c, lo), 2 * c.maxRetries + 1);
    match t
    case Unread(p, o) => BelowTop(c, lo, s, Rec(p, o));
    case Waiting(i) =>
      assert TaskOk(c, s, s.tasks[i]);
      BelowTop(c, lo, s, s.tasks[i].rec);
    case Step(i, n) =>
      assert TaskOk(c, s, s.tasks[i]);
      BelowTop(c, lo, s, s.tasks[i].rec);
    case _ =>
  }

  lemma ConsumesDescends(c: Config, lo: int, s: State, s': State, done: Token)
    requires Ready(c, lo, s) && Consumes(c, lo, s, s', done)
    ensures LexLess(Work2Do(c, lo, s'), Work2Do(c, lo, s))
  {
    IndexInRange(c, lo, s, done);
    var k := Index(c, lo, s, done);
    var v, v' := Work2Do(c, lo, s), Work2Do(c, lo, s');
    assert |v'| == |v| && k < |v|;
    forall m | 0 <= m <= k
      ensures v'[m] <= v[m] && (m == k ==> v'[m] < v[m])
    {
      assert v[m] == |TokensAt(c, lo, s, m)| && v'[m] == |TokensAt(c, lo, s', m)|;
      hide *;
      FewerTokens(c, lo, s, s', done, m);
    }
    hide *;
    LexIntro(v', v, k);
  }

  lemma FewerTokens(c: Config, lo: int, s: State, s': State, done: Token, m: int)
    requires Consumes(c, lo, s, s', done) && m <= Index(c, lo, s, done)
    ensures |TokensAt(c, lo, s', m)| <= |TokensAt(c, lo, s, m)|
    ensures m == Index(c, lo, s, done) ==> |TokensAt(c, lo, s', m)| < |TokensAt(c, lo, s, m)|
  {
    var before, after := TokensAt(c, lo, s, m), TokensAt(c, lo, s', m);
    TokensAreLive(s, done);
    TokensAreLive(s', done);
    forall t | t in after
      ensures t in before
    {
      TokensAreLive(s, t);
      TokensAreLive(s', t);
    }
    hide *;
    SubsetSizes(after, before, done);
  }

  lemma SubsetSizes(a: set<Token>, b: set<Token>, t: Token)
    requires a <= b
    ensures |a| <= |b| && (t in b && t !in a ==> |a| < |b|)
  {
    assert b == a + (b - a) && |b| == |a| + |b - a|;
    assert t in b && t !in a ==> t in b - a;
  }

  lemma ExpandersStay(c: Config, s: State, s': State, e: Event)
    requires Tasks(c, s) && Expanders(c, s) && Next(c, s, s', e)
    ensures Expanders(c, s')
  {
    NextGrows(c, s, s', e);
    forall j | 0 <= j < |s'.tasks| && Expanding(s'.tasks[j].phase)
      ensures IsMessage(s', s'.tasks[j].rec) && EntryAt(s', s'.tasks[j].rec).payload.depth < c.maxDepth
    {
      ExpandsBefore(c, s, s', e, j);
      GrowsLogs(s, s', s.tasks[j].rec);
    }
  }

  /** An expanding call was a call before, on a page above the depth limit. */
  lemma ExpandsBefore(c: Config, s: State, s': State, e: Event, j: nat)
    requires Tasks(c, s) && Expanders(c, s) && Next(c, s, s', e) && j < |s'.tasks| && Expanding(s'.tasks[j].phase)
    ensures j < |s.tasks| && s.tasks[j].rec == s'.tasks[j].rec && IsMessage(s, s.tasks[j].rec)
    ensures EntryAt(s, s.tasks[j].rec).payload.depth < c.maxDepth
  {
    match e
    case EvTask(i) =>
      if Work(c, s, s', i) {
        WorkExpands(c, s, s', i, j);
      } else {
        hide Work;
        var sent: State, outcome :|
          Send(c, s, sent, i, outcome) && i < |sent.tasks| && s' == SetPhase(sent, i, Done(outcome));
        SendKeepsRest(c, s, sent, i, outcome);
        hide Send;
        assert j != i;
      }
    case EvLostAck(i) =>
      var outcome :| Send(c, s, s', i, outcome);
      SendKeepsRest(c, s, s', i, outcome);
    case _ =>
      hide Work, Send;
  }

  lemma WorkExpands(c: Config, s: State, s': State, i: nat, j: nat)
    requires Tasks(c, s) && Expanders(c, s) && Work(c, s, s', i) && j < |s'.tasks| && Expanding(s'.tasks[j].phase)
    ensures j < |s.tasks| && s.tasks[j].rec == s'.tasks[j].rec && IsMessage(s, s.tasks[j].rec)
    ensures EntryAt(s, s.tasks[j].rec).payload.depth < c.maxDepth
  {
    if i == j {
      assert s.tasks[i].phase.Fresh? || Expanding(s.tasks[i].phase);
    } else {
      assert s'.tasks[j] == s.tasks[j];
    }
  }

  lemma {:induction false} RunExpanders(c: Config, ss: seq<State>, es: seq<Event>)
    requires Run(c, ss, es)
    ensures Expanders(c, Last(ss))
    decreases |es|
  {
    if es != [] {
      var n := |es| - 1;
      RunPrefix(c, ss, es);
      RunInv(c, ss[..n + 1], es[..n]);
      RunExpanders(c, ss[..n + 1], es[..n]);
      hide Run, Next, Expanders, Tasks, Offsets, Attempts, Once;
      ExpandersStay(c, ss[n], ss[n + 1], es[n]);
    }
  }

  lemma BoundedStays(c: Config, lo: int, s: State, s': State, e: Event)
    requires Ready(c, lo, s) && Next(c, s, s', e) && Inner(e)
    ensures Bounded(c, lo, s')
  {
    ExpandersStay(c, s, s', e);
    if e.EvTask? {
      TaskStaysAbove(c, lo, s, s', e.i);
    } else {
      OthersStayAbove(c, lo, s, s', e);
    }
    hide Expanders, Above, CalmInv, Next;
  }

  lemma ReadyStays(c: Config, lo: int, s: State, s': State, e: Event)
    requires Ready(c, lo, s) && Next(c, s, s', e) && Inner(e)
    ensures Ready(c, lo, s')
  {
    BoundedStays(c, lo, s, s', e);
    CalmNextKeepsInv(c, s, s', e);
    hide Next, Bounded, CalmInv;
  }

  lemma OthersStayAbove(c: Config, lo: int, s: State, s': State, e: Event)
    requires Above(lo, s) && Next(c, s, s', e) && Inner(e) && !e.EvTask?
    ensures Above(lo, s')
  {
    assert s'.logs == s.logs;
    hide Next;
    forall r | IsMessage(s', r)
      ensures EntryAt(s', r).payload.depth >= lo
    {
      assert IsMessage(s, r) && EntryAt(s', r) == EntryAt(s, r);
    }
  }

  /** The records stay above `lo` if the new one is. */
  lemma DepthsStay(lo: int, s: State, s': State, p: nat, e: Entry)
    requires Above(lo, s) && p < |s.logs| && s'.logs == Append(s, p, e).logs
    requires e.payload.Message? ==> e.payload.depth >= lo
    ensures Above(lo, s')
  {
    forall r | IsMessage(s', r)
      ensures EntryAt(s', r).payload.depth >= lo
    {
      AppendedRec(s, s', p, e, r);
      assert r != NextRec(s, p) ==> IsMessage(s, r);
    }
  }

  lemma TaskStaysAbove(c: Config, lo: int, s: State, s': State, i: nat)
    requires Ready(c, lo, s) && TaskStep(c, s, s', i)
    ensures Above(lo, s')
  {
    if Work(c, s, s', i) {
      WorkStaysAbove(c, lo, s, s', i);
    } else {
      var sent: State, outcome :|
        Send(c, s, sent, i, outcome) && i < |sent.tasks| && s' == SetPhase(sent, i, Done(outcome));
      SendStaysAbove(c, lo, s, sent, i, outcome);
      hide Ready, Send, Work;
      assert forall r :: IsMessage(s', r) ==> IsMessage(sent, r) && EntryAt(s', r) == EntryAt(sent, r);
    }
  }

  lemma WorkStaysAbove(c: Config, lo: int, s: State, s': State, i: nat)
    requires Ready(c, lo, s) && Work(c, s, s', i)
    ensures Above(lo, s')
  {
    hide CalmInv, Expanders;
    if s.tasks[i].phase.Enqueueing? && s'.logs != s.logs {
      var links, k := s.tasks[i].phase.links, s.tasks[i].phase.next;
      var e := Entry(Message(links[k], EntryAt(s, s.tasks[i].rec).payload.depth + 1, 0, 0.0), Child(s.tasks[i].rec));
      var p: nat :| On(c, p, FrontierTopic) && p < |s.logs| && s'.logs == Append(s, p, e).logs;
      assert IsMessage(s, s.tasks[i].rec);
      DepthsStay(lo, s, s', p, e);
    } else {
      assert s'.logs == s.logs;
      assert forall r :: IsMessage(s', r) ==> IsMessage(s, r) && EntryAt(s', r) == EntryAt(s, r);
    }
  }

  lemma SendStaysAbove(c: Config, lo: int, s: State, sent: State, i: nat, outcome: Outcome)
    requires Ready(c, lo, s) && Send(c, s, sent, i, outcome)
    ensures Above(lo, sent)
  {
    var t := s.tasks[i];
    var m := EntryAt(s, t.rec).payload;
    hide CalmInv, Expanders;
    assert IsMessage(s, t.rec);
    if t.phase.Fresh? {
      var p: nat :| p < |s.logs| && sent == Append(s, p, Entry(m.(notBefore := 0.0), Forward(t.rec)));
      DepthsStay(lo, s, sent, p, Entry(m.(notBefore := 0.0), Forward(t.rec)));
    } else if m.attempts < c.maxRetries {
      var p: nat, now :| p < |s.logs| && sent == Append(s, p, Entry(RetryOf(m, now), Forward(t.rec)));
      DepthsStay(lo, s, sent, p, Entry(RetryOf(m, now), Forward(t.rec)));
    } else {
      assert forall r :: IsMessage(sent, r) ==> IsMessage(s, r) && EntryAt(sent, r) == EntryAt(s, r);
    }
  }

  // ---------------------------------------------------------------- the end

  /** No depth in the logs is below some bound. */
  lemma LowestDepth(s: State) returns (lo: int)
    ensures Above(lo, s)
  {
    lo := 0;
    for p := 0 to |s.logs|
      invariant forall r :: IsMessage(s, r) && r.partition < p ==> EntryAt(s, r).payload.depth >= lo
    {
      for o := 0 to |s.logs[p]|
        invariant forall r :: IsMessage(s, r) && r.partition < p ==> EntryAt(s, r).payload.depth >= lo
        invariant forall r :: IsMessage(s, r) && r.partition == p && r.offset < o ==> EntryAt(s, r).payload.depth >= lo
      {
        var payload := s.logs[p][o].payload;
        if payload.Message? && payload.depth < lo {
          lo := payload.depth;
        }
      }
    }
  }

  /** Following the run as long as its steps are steps. */
  lemma {:induction false} Follow(c: Config, lo: int, run: nat -> State, ev: nat -> Event, i: nat, j: nat)
    returns (k: nat)
    requires Ready(c, lo, run(i)) && i <= j && forall m: nat :: Inner(ev(m))
    ensures i <= k <= j && ((k == j && Ready(c, lo, run(k))) || !Next(c, run(k), run(k + 1), ev(k)))
    decreases j
  {
    if i == j {
      return i;
    }
    k := Follow(c, lo, run, ev, i, j - 1);
    hide *;
    if k == j - 1 && Next(c, run(k), run(k + 1), ev(k)) {
      ReadyStays(c, lo, run(k), run(j), ev(k));
      k := j;
    }
  }

  /** From any state that a calm run reaches: without new messages from outside no sequence of steps goes on
      for ever, however many links the pages have. */
  lemma NoEndlessDelivery(c: Config, ss: seq<State>, es: seq<Event>, run: nat -> State, ev: nat -> Event)
    returns (j: nat)
    requires CalmRun(c, ss, es) && run(0) == Last(ss) && forall m: nat :: Inner(ev(m))
    ensures !Next(c, run(j), run(j + 1), ev(j))
  {
    CalmRunInv(c, ss, es);
    var lo := LowestDepth(run(0));
    RunExpanders(c, ss, es);
    assert Ready(c, lo, run(0));
    var f: nat -> seq<nat> := k => Work2Do(c, lo, run(k));
    forall m: nat
      ensures |f(m)| == |f(0)|
    {
      assert f(m) == Work2Do(c, lo, run(m)) && f(0) == Work2Do(c, lo, run(0));
    }
    hide Ready, CalmRun, Next, Work2Do, Top, LexLess, Consumes;
    j := NoEndlessDescent(f, |f(0)|, 0);
    var k := Follow(c, lo, run, ev, 0, j);
    if Next(c, run(k), run(k + 1), ev(k)) {
      var done := NextConsumes(c, lo, run(j), run(j + 1), ev(j));
      ConsumesDescends(c, lo, run(j), run(j + 1), done);
    }
    j := k;
  }
}
