/** How far down children go and how large batches get, in every run. */
module DeliveryBounds {
  import opened Delivery
  import opened DeliverySafety
  import opened Lineage
  import opened DeliveryWork
  import opened DeliveryProgress

  /** A child is one level below its page, not below the depth limit, and a fresh message of the frontier. */
  ghost predicate ChildrenFit(c: Config, s: State) {
    forall r :: InLog(s, r) && EntryAt(s, r).origin.Child? ==> ChildFits(c, s, r)
  }

  ghost predicate ChildFits(c: Config, s: State, r: Rec)
    requires InLog(s, r) && EntryAt(s, r).origin.Child?
  {
    var m, page := EntryAt(s, r).payload, EntryAt(s, r).origin.of;
    && m.Message? && On(c, r.partition, FrontierTopic) && m.attempts == 0 && m.notBefore == 0.0
    && IsMessage(s, page) && m.depth == EntryAt(s, page).payload.depth + 1 <= c.maxDepth
  }

  /** `getmany(max_records=100)` */
  ghost predicate SmallBatches(s: State) {
    forall w :: w in s.workers ==> |s.workers[w].batch| <= 100
  }

  lemma FitsStays(c: Config, s: State, s': State, r: Rec)
    requires Grows(s, s') && InLog(s, r) && EntryAt(s, r).origin.Child? && ChildFits(c, s, r)
    ensures InLog(s', r) && EntryAt(s', r) == EntryAt(s, r) && ChildFits(c, s', r)
  {
    GrowsLogs(s, s', r);
    GrowsLogs(s, s', EntryAt(s, r).origin.of);
  }

  /** Only a call that enqueues writes a child. */
  lemma NewChild(c: Config, s: State, s': State, e: Event, r: Rec)
    requires Next(c, s, s', e) && InLog(s', r) && !InLog(s, r) && EntryAt(s', r).origin.Child?
    ensures e.EvTask? && Work(c, s, s', e.i) && e.i < |s.tasks| && s.tasks[e.i].phase.Enqueueing? && s'.logs != s.logs
  {
  }

  lemma ChildWritten(c: Config, s: State, s': State, i: nat, r: Rec)
    requires Tasks(c, s) && Expanders(c, s) && Work(c, s, s', i) && Grows(s, s')
    requires s.tasks[i].phase.Enqueueing? && InLog(s', r) && !InLog(s, r) && EntryAt(s', r).origin.Child?
    ensures ChildFits(c, s', r)
  {
    var page := s.tasks[i].rec;
    assert Expanding(s.tasks[i].phase) && IsMessage(s, page);
    var links, k := s.tasks[i].phase.links, s.tasks[i].phase.next;
    var e := Entry(Message(links[k], EntryAt(s, page).payload.depth + 1, 0, 0.0), Child(page));
    var p: nat :| On(c, p, FrontierTopic) && p < |s.logs| && s'.logs == Append(s, p, e).logs;
    AppendedRec(s, s', p, e, r);
    GrowsLogs(s, s', page);
  }

  lemma NextFits(c: Config, s: State, s': State, e: Event)
    requires Tasks(c, s) && Expanders(c, s) && ChildrenFit(c, s) && Next(c, s, s', e)
    ensures ChildrenFit(c, s')
  {
    NextGrows(c, s, s', e);
    forall r | InLog(s', r) && EntryAt(s', r).origin.Child?
      ensures ChildFits(c, s', r)
    {
      hide ChildFits, Grows, Work, Expanders, Tasks;
      if InLog(s, r) {
        GrowsLogs(s, s', r);
        FitsStays(c, s, s', r);
      } else {
        NewChild(c, s, s', e, r);
        ChildWritten(c, s, s', e.i, r);
      }
    }
  }

  lemma NextSmall(c: Config, s: State, s': State, e: Event)
    requires SmallBatches(s) && Next(c, s, s', e)
    ensures SmallBatches(s')
  {
    hide Work, Send;
    match e
    case EvTask(i) => var base, phase := TaskStepShape(c, s, s', i);
    case EvLostAck(i) =>
      var outcome :| Send(c, s, s', i, outcome);
      SendKeepsRest(c, s, s', i, outcome);
    case _ =>
  }

  /** In every run, crashes, rebalances and redelivery included. */
  lemma {:induction false} RunStaysBounded(c: Config, ss: seq<State>, es: seq<Event>)
    requires Run(c, ss, es)
    ensures ChildrenFit(c, Last(ss)) && SmallBatches(Last(ss))
    decreases |es|
  {
    if es != [] {
      var n := |es| - 1;
      RunPrefix(c, ss, es);
      RunStaysBounded(c, ss[..n + 1], es[..n]);
      RunInv(c, ss[..n + 1], es[..n]);
      RunExpanders(c, ss[..n + 1], es[..n]);
      hide Run, Next, ChildrenFit, SmallBatches, Expanders, Tasks, Offsets, Attempts, Once;
      NextFits(c, ss[n], ss[n + 1], es[n]);
      NextSmall(c, ss[n], ss[n + 1], es[n]);
    }
  }
}
