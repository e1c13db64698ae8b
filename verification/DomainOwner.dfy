/** One worker per domain: what the in-process breaker, robots cache and limiter of a worker rest on
    (crawler/frontier/kafka_frontier.py, crawler/resilience/circuit_breaker.py). */
module DomainOwner {
  import opened Delivery
  import opened DeliverySafety
  import opened Lineage
  import opened DeliveryCompletion

  /** `partition_for`: every producer sends a domain to the same frontier partition. */
  type Home = string -> nat

  /** What the step adds to the frontier goes to the partition of its domain. */
  ghost predicate SentHome(c: Config, home: Home, s: State, s': State) {
    forall r :: InLog(s', r) && !InLog(s, r) ==> AtHome(c, home, s', r)
  }

  ghost predicate AtHome(c: Config, home: Home, s: State, r: Rec)
    requires InLog(s, r)
  {
    On(c, r.partition, FrontierTopic) && EntryAt(s, r).payload.Message? ==>
      r.partition == home(EntryAt(s, r).payload.url.domain)
  }

  ghost predicate RoutedRun(c: Config, home: Home, ss: seq<State>, es: seq<Event>) {
    CalmRun(c, ss, es) && forall k {:trigger es[k]} :: 0 <= k < |es| ==> SentHome(c, home, ss[k], ss[k + 1])
  }

  lemma RoutedPrefix(c: Config, home: Home, ss: seq<State>, es: seq<Event>, k: nat)
    requires RoutedRun(c, home, ss, es) && k <= |es|
    ensures RoutedRun(c, home, ss[..k + 1], es[..k]) && Last(ss[..k + 1]) == ss[k]
    ensures k < |es| ==> Next(c, ss[k], ss[k + 1], es[k]) && Calm(es[k]) && SentHome(c, home, ss[k], ss[k + 1])
  {
    hide Next, SentHome;
    var ss', es' := ss[..k + 1], es[..k];
    assert Run(c, ss', es');
    forall m | 0 <= m < |es'|
      ensures Calm(es'[m])
    {
      assert es'[m] == es[m];
    }
    forall m | 0 <= m < |es'|
      ensures SentHome(c, home, ss'[m], ss'[m + 1])
    {
      assert es'[m] == es[m];
    }
  }

  /** Records are at home, and a batch holds calls of its worker's own partitions only. */
  ghost predicate Settled(c: Config, home: Home, s: State) {
    && Batched(s) && Tasks(c, s)
    && (forall r :: InLog(s, r) ==> AtHome(c, home, s, r))
    && forall w: nat, i: nat :: Holds(s, w, i) && i < |s.tasks| ==> OwnerOf(s, s.tasks[i].rec.partition, w)
  }

  ghost predicate OwnerOf(s: State, p: nat, w: nat) {
    p in s.owner && s.owner[p] == w
  }

  lemma RecordsStayHome(c: Config, home: Home, s: State, s': State)
    requires Grows(s, s') && SentHome(c, home, s, s') && forall r :: InLog(s, r) ==> AtHome(c, home, s, r)
    ensures forall r :: InLog(s', r) ==> AtHome(c, home, s', r)
  {
    forall r | InLog(s', r)
      ensures AtHome(c, home, s', r)
    {
      if InLog(s, r) {
        GrowsLogs(s, s', r);
        assert AtHome(c, home, s, r);
      }
    }
  }

  /** Without rebalances a partition keeps its owner. */
  lemma OwnersStay(c: Config, s: State, s': State, e: Event, p: nat, w: nat)
    requires Next(c, s, s', e) && Calm(e) && OwnerOf(s, p, w)
    ensures OwnerOf(s', p, w)
  {
    hide Work, Send;
    match e
    case EvTask(i) => var base, phase := TaskStepShape(c, s, s', i);
    case _ =>
  }

  lemma HeldByOwner(c: Config, s: State, s': State, e: Event, w: nat, i: nat)
    requires Next(c, s, s', e) && Calm(e) && Grows(s, s') && Holds(s', w, i) && i < |s'.tasks|
    ensures Holds(s, w, i) || OwnerOf(s', s'.tasks[i].rec.partition, w)
  {
    hide Work, Send;
    match e
    case EvTask(j) => var base, phase := TaskStepShape(c, s, s', j);
    case _ =>
  }

  lemma NextSettled(c: Config, home: Home, s: State, s': State, e: Event)
    requires Settled(c, home, s) && Next(c, s, s', e) && Calm(e) && SentHome(c, home, s, s')
    ensures Settled(c, home, s')
  {
    NextGrows(c, s, s', e);
    NextTasks(c, s, s', e);
    NextBatched(c, s, s', e);
    RecordsStayHome(c, home, s, s');
    hide Next, SentHome, Tasks, AtHome;
    forall w: nat, i: nat | Holds(s', w, i) && i < |s'.tasks|
      ensures OwnerOf(s', s'.tasks[i].rec.partition, w)
    {
      HeldByOwner(c, s, s', e, w, i);
      if Holds(s, w, i) {
        OwnersStay(c, s, s', e, s.tasks[i].rec.partition, w);
      }
    }
  }

  lemma {:induction false} RunSettled(c: Config, home: Home, ss: seq<State>, es: seq<Event>, k: nat)
    requires RoutedRun(c, home, ss, es) && k <= |es|
    ensures Settled(c, home, ss[k])
  {
    if k > 0 {
      RoutedPrefix(c, home, ss, es, k - 1);
      RunSettled(c, home, ss, es, k - 1);
      hide *;
      NextSettled(c, home, ss[k - 1], ss[k], es[k - 1]);
    }
  }

  lemma {:induction false} OwnerForGood(c: Config, home: Home, ss: seq<State>, es: seq<Event>, k: nat, l: nat,
                                        p: nat, w: nat)
    requires RoutedRun(c, home, ss, es) && k <= l <= |es| && OwnerOf(ss[k], p, w)
    ensures OwnerOf(ss[l], p, w)
    decreases l
  {
    if k < l {
      OwnerForGood(c, home, ss, es, k, l - 1, p, w);
      RoutedPrefix(c, home, ss, es, l - 1);
      hide *;
      OwnersStay(c, ss[l - 1], ss[l], es[l - 1], p, w);
    }
  }

  /** Worker `w` holds call `i`, which processes a frontier message of the domain. */
  ghost predicate Processes(c: Config, s: State, w: nat, i: nat, domain: string) {
    && Holds(s, w, i) && i < |s.tasks| && On(c, s.tasks[i].rec.partition, FrontierTopic)
    && IsMessage(s, s.tasks[i].rec) && EntryAt(s, s.tasks[i].rec).payload.url.domain == domain
  }

  /** A call that processes a domain is in the hands of the owner of the domain's partition. */
  lemma ProcessedByOwner(c: Config, home: Home, ss: seq<State>, es: seq<Event>, k: nat, w: nat, i: nat, domain: string)
    requires RoutedRun(c, home, ss, es) && k <= |es| && Processes(c, ss[k], w, i, domain)
    ensures OwnerOf(ss[k], home(domain), w)
  {
    RunSettled(c, home, ss, es, k);
    hide RoutedRun, Batched, Tasks;
    assert AtHome(c, home, ss[k], ss[k].tasks[i].rec);
  }

  /** At any two times of a calm run, calls that process one domain are in the hands of one worker. */
  lemma OneWorkerPerDomain(c: Config, home: Home, ss: seq<State>, es: seq<Event>, k: nat, l: nat,
                           w: nat, i: nat, v: nat, j: nat, domain: string)
    requires RoutedRun(c, home, ss, es) && k <= |es| && l <= |es|
    requires Processes(c, ss[k], w, i, domain) && Processes(c, ss[l], v, j, domain)
    ensures w == v
  {
    ProcessedByOwner(c, home, ss, es, k, w, i, domain);
    ProcessedByOwner(c, home, ss, es, l, v, j, domain);
    if k <= l {
      OwnerForGood(c, home, ss, es, k, l, home(domain), w);
    } else {
      OwnerForGood(c, home, ss, es, l, k, home(domain), v);
    }
    hide RoutedRun, Processes;
  }

  /** Every unfinished call is in some worker's hands, so `OneWorkerPerDomain` speaks of all of them. */
  lemma SomebodyHolds(c: Config, home: Home, ss: seq<State>, es: seq<Event>, k: nat, i: nat) returns (w: nat)
    requires RoutedRun(c, home, ss, es) && k <= |es| && i < |ss[k].tasks| && !ss[k].tasks[i].phase.Done?
    ensures Holds(ss[k], w, i)
  {
    RunSettled(c, home, ss, es, k);
    hide RoutedRun, Tasks, AtHome;
    w :| Holds(ss[k], w, i);
  }
}
