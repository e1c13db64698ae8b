/** The distributed worker (crawler/worker.py, crawler/pipeline/distributed.py) over a partitioned log:
    consume a batch, handle its messages concurrently, commit; with retries, a dead-letter queue,
    rebalances, crashes and redelivery. */
module Delivery {
  import opened Bits
  import opened Frontier
  import Engine

  datatype Topic = FrontierTopic | RetryTopic

  datatype Config = Config(topics: seq<Topic>, maxDepth: int, maxRetries: nat)

  const MAX_RECORDS := 100

  datatype Payload = Garbage | Message(url: Url, depth: int, attempts: int, notBefore: real)

  /** The place of a record: partition and offset. */
  datatype Rec = Rec(partition: nat, offset: nat)

  /** Why a record was written (history). */
  datatype Origin = External | Child(of: Rec) | Forward(of: Rec)

  datatype Entry = Entry(payload: Payload, origin: Origin)

  datatype Outcome =
    | Undecodable | TooDeep | Handled
    | Republished(to: Rec) | Retried(to: Rec) | Dead(index: nat)

  /** How far one call of `_handle` has come. `Gating` is about to ask the seen-set for link `next`,
      `Enqueueing` was told that it is new. */
  datatype Phase =
    | Fresh
    | Gating(links: seq<Url>, next: nat)
    | Enqueueing(links: seq<Url>, next: nat)
    | Retrying
    | Done(outcome: Outcome)

  datatype Task = Task(rec: Rec, phase: Phase)

  /** `batch` holds indices of `tasks`; `handling` is false while the batch is being fetched. */
  datatype Worker = Worker(handling: bool, batch: set<nat>)

  const IDLE := Worker(false, {})

  /** `tasks` lists every call of `_handle` ever made. A call whose worker died, or lost its partition,
      stays in the list and may or may not go on: nothing says that it does. */
  datatype State = State(
    logs: seq<seq<Entry>>, committed: seq<nat>, position: seq<nat>, owner: map<nat, nat>,
    workers: map<nat, Worker>, tasks: seq<Task>, dlq: seq<Payload>, seen: set<Url>)

  function Init(c: Config): State {
    var n := |c.topics|;
    State(seq(n, _ => []), seq(n, _ => 0), seq(n, _ => 0), map[], map[], [], [], {})
  }

  predicate InLog(s: State, r: Rec) {
    r.partition < |s.logs| && r.offset < |s.logs[r.partition]|
  }

  function EntryAt(s: State, r: Rec): Entry
    requires InLog(s, r)
  {
    s.logs[r.partition][r.offset]
  }

  predicate On(c: Config, p: nat, topic: Topic) {
    p < |c.topics| && c.topics[p] == topic
  }

  function WorkerOf(s: State, w: nat): Worker {
    if w in s.workers then s.workers[w] else IDLE
  }

  function NextRec(s: State, p: nat): Rec
    requires p < |s.logs|
  {
    Rec(p, |s.logs[p]|)
  }

  function Append(s: State, p: nat, e: Entry): State
    requires p < |s.logs|
  {
    s.(logs := s.logs[p := s.logs[p] + [e]])
  }

  function SetPhase(s: State, i: nat, phase: Phase): State
    requires i < |s.tasks|
  {
    s.(tasks := s.tasks[i := s.tasks[i].(phase := phase)])
  }

  // ---------------------------------------------------------------- consuming and committing

  ghost predicate Publish(c: Config, s: State, s': State, p: nat, payload: Payload) {
    && p < |s.logs| && (payload.Garbage? || (On(c, p, FrontierTopic) && payload.attempts == 0))
    && s' == Append(s, p, Entry(payload, External))
  }

  ghost predicate Assign(s: State, s': State, p: nat, w: nat) {
    && p < |s.logs| && p < |s.committed| && p < |s.position| && p !in s.owner
    && s' == s.(owner := s.owner[p := w], position := s.position[p := s.committed[p]])
  }

  /** A rebalance takes a partition away, perhaps in the middle of a batch. */
  ghost predicate Revoke(s: State, s': State, p: nat) {
    s' == s.(owner := s.owner - {p})
  }

  ghost predicate Crash(s: State, s': State, w: nat) {
    s' == s.(owner := map p | p in s.owner && s.owner[p] != w :: s.owner[p], workers := s.workers[w := IDLE])
  }

  /** `getmany` hands over the next record of one of the worker's partitions. */
  ghost predicate Fetch(s: State, s': State, w: nat, p: nat) {
    && p in s.owner && s.owner[p] == w && p < |s.logs| && p < |s.position| && s.position[p] < |s.logs[p]|
    && !WorkerOf(s, w).handling && |WorkerOf(s, w).batch| < MAX_RECORDS
    && s' == s.(position := s.position[p := s.position[p] + 1],
                tasks := s.tasks + [Task(Rec(p, s.position[p]), Fresh)],
                workers := s.workers[w := Worker(false, WorkerOf(s, w).batch + {|s.tasks|})])
  }

  ghost predicate Begin(s: State, s': State, w: nat) {
    && WorkerOf(s, w).batch != {} && !WorkerOf(s, w).handling
    && s' == s.(workers := s.workers[w := WorkerOf(s, w).(handling := true)])
  }

  /** `gather` has returned and the offsets of the worker's partitions are committed. */
  ghost predicate Commit(s: State, s': State, w: nat) {
    && WorkerOf(s, w).handling
    && (forall i :: i in WorkerOf(s, w).batch ==> i < |s.tasks| && s.tasks[i].phase.Done?)
    && |s'.committed| == |s.committed| == |s.position|
    && (forall p :: 0 <= p < |s.committed| ==>
          s'.committed[p] == if p in s.owner && s.owner[p] == w then s.position[p] else s.committed[p])
    && s' == s.(committed := s'.committed, workers := s.workers[w := IDLE])
  }

  // ---------------------------------------------------------------- one call of _handle

  /** The answer of `pipeline.process`: an exception, `skipped == "fetch_error"`, or anything else. */
  datatype Reply = Raised | FetchError | Answer(result: Engine.Result)

  function AfterProcess(c: Config, depth: int, reply: Reply): Phase {
    match reply
    case Raised => Retrying
    case FetchError => Retrying
    case Answer(r) => if r.fetched && !r.duplicate && depth < c.maxDepth then Gating(r.links, 0) else Done(Handled)
  }

  /** `min(2**attempts, 30)` seconds. */
  function Backoff(attempts: int): real {
    if attempts < 0 then 1.0 / Pow2(-attempts) as real
    else if Pow2(attempts) < 30 then Pow2(attempts) as real else 30.0
  }

  /** The delay is a second for no attempt, doubles with each one and stops at thirty seconds. */
  lemma BackoffDoubles(attempts: int)
    ensures Backoff(0) == 1.0 && 0.0 < Backoff(attempts) <= 30.0
    ensures Backoff(attempts + 1) == if 2.0 * Backoff(attempts) < 30.0 then 2.0 * Backoff(attempts) else 30.0
  {
    if attempts < 0 {
      var p := Pow2(-attempts - 1) as real;
      assert Pow2(-attempts) as real == 2.0 * p && p >= 1.0;
      HalfOfInverse(p);
    }
  }

  lemma HalfOfInverse(p: real)
    requires p >= 1.0
    ensures 2.0 * (1.0 / (2.0 * p)) == 1.0 / p && 0.0 < 1.0 / (2.0 * p) <= 0.5 && 1.0 / p <= 1.0
  {
    var x := 1.0 / (2.0 * p);
    assert x * (2.0 * p) == 1.0;
    assert (2.0 * x) * p == 1.0;
  }

  /** A retried copy has made one attempt more and waits between no time and thirty seconds, the delay of its
      attempts; nothing else about it changes. */
  lemma RetryWaits(m: Payload, now: real)
    requires m.Message?
    ensures var copy := RetryOf(m, now);
            && copy.Message? && copy.url == m.url && copy.depth == m.depth && copy.attempts == m.attempts + 1
            && now < copy.notBefore <= now + 30.0 && copy.notBefore == now + Backoff(m.attempts + 1)
  {
    BackoffDoubles(m.attempts + 1);
  }

  /** The last send of a call: back to the frontier, to the retry topic, or to the dead-letter queue. */
  ghost predicate Send(c: Config, s: State, sent: State, i: nat, outcome: Outcome) {
    && i < |s.tasks| && InLog(s, s.tasks[i].rec) && EntryAt(s, s.tasks[i].rec).payload.Message?
    && var t := s.tasks[i];
       var m := EntryAt(s, t.rec).payload;
       if t.phase.Fresh? && On(c, t.rec.partition, RetryTopic) then
         exists p: nat :: On(c, p, FrontierTopic) && p < |s.logs|
                  && sent == Append(s, p, Entry(m.(notBefore := 0.0), Forward(t.rec)))
                  && outcome == Republished(NextRec(s, p))
       else if t.phase.Retrying? && m.attempts >= c.maxRetries then
         sent == s.(dlq := s.dlq + [m]) && outcome == Dead(|s.dlq|)
       else if t.phase.Retrying? then
         exists p: nat, now ::
           On(c, p, RetryTopic) && p < |s.logs|
           && sent == Append(s, p, Entry(RetryOf(m, now), Forward(t.rec)))
           && outcome == Retried(NextRec(s, p))
       else false
  }

  function RetryOf(m: Payload, now: real): Payload
    requires m.Message?
  {
    m.(attempts := m.attempts + 1, notBefore := now + Backoff(m.attempts + 1))
  }

  /** The steps before the last send, for a message of the frontier topic. */
  ghost predicate Work(c: Config, s: State, s': State, i: nat) {
    && i < |s.tasks| && InLog(s, s.tasks[i].rec)
    && var t := s.tasks[i];
       var m := EntryAt(s, t.rec).payload;
       match t.phase
       case Fresh =>
         if m.Garbage? then s' == SetPhase(s, i, Done(Undecodable))
         else
           && On(c, t.rec.partition, FrontierTopic)
           && if m.depth > c.maxDepth then s' == SetPhase(s, i, Done(TooDeep))
              else exists reply :: s' == SetPhase(s, i, AfterProcess(c, m.depth, reply))
       case Gating(links, k) =>
         if k >= |links| then s' == SetPhase(s, i, Done(Handled))
         else Gate(s, s', i, links, k)
       case Enqueueing(links, k) =>
         k < |links| && m.Message? && Enqueue(c, s, s', i, links, k, m.depth)
       case Retrying => false
       case Done(_) => false
  }

  /** `check_and_add` says "new" only for a URL it has never met; it may call a new URL known; it may fail. */
  ghost predicate Gate(s: State, s': State, i: nat, links: seq<Url>, k: nat)
    requires i < |s.tasks| && k < |links|
  {
    var marked := s.(seen := s.seen + {links[k]});
    || (links[k] !in s.seen && s' == SetPhase(marked, i, Enqueueing(links, k)))
    || s' == SetPhase(marked, i, Gating(links, k + 1))
    || s' == SetPhase(marked, i, Retrying)
    || s' == SetPhase(s, i, Retrying)
  }

  /** The enqueue succeeds, or fails before or after the record is written. */
  ghost predicate Enqueue(c: Config, s: State, s': State, i: nat, links: seq<Url>, k: nat, depth: int)
    requires i < |s.tasks| && k < |links|
  {
    || s' == SetPhase(s, i, Retrying)
    || exists p: nat ::
         On(c, p, FrontierTopic) && p < |s.logs|
         && var sent := Append(s, p, Entry(Message(links[k], depth + 1, 0, 0.0), Child(s.tasks[i].rec)));
            (s' == SetPhase(sent, i, Gating(links, k + 1)) || s' == SetPhase(sent, i, Retrying))
  }

  /** A call starts only once its whole batch has been fetched. */
  ghost predicate Started(s: State, i: nat) {
    forall w :: w in s.workers && i in s.workers[w].batch ==> s.workers[w].handling
  }

  ghost predicate TaskStep(c: Config, s: State, s': State, i: nat) {
    && Started(s, i)
    && (Work(c, s, s', i)
        || exists sent: State, outcome ::
             Send(c, s, sent, i, outcome) && i < |sent.tasks| && s' == SetPhase(sent, i, Done(outcome)))
  }

  /** The last send is written but its acknowledgement is lost: the exception takes the worker down. */
  ghost predicate LostAck(c: Config, s: State, s': State, i: nat) {
    exists outcome :: Send(c, s, s', i, outcome)
  }

  // ---------------------------------------------------------------- runs

  datatype Event =
    | EvPublish(p: nat, payload: Payload)
    | EvAssign(p: nat, w: nat)
    | EvFetch(w: nat, p: nat)
    | EvBegin(w: nat)
    | EvTask(i: nat)
    | EvCommit(w: nat)
    | EvRevoke(p: nat)
    | EvCrash(w: nat)
    | EvLostAck(i: nat)

  ghost predicate Next(c: Config, s: State, s': State, e: Event) {
    match e
    case EvPublish(p, payload) => Publish(c, s, s', p, payload)
    case EvAssign(p, w) => Assign(s, s', p, w)
    case EvFetch(w, p) => Fetch(s, s', w, p)
    case EvBegin(w) => Begin(s, s', w)
    case EvTask(i) => TaskStep(c, s, s', i)
    case EvCommit(w) => Commit(s, s', w)
    case EvRevoke(p) => Revoke(s, s', p)
    case EvCrash(w) => Crash(s, s', w)
    case EvLostAck(i) => LostAck(c, s, s', i)
  }

  predicate Calm(e: Event) {
    !e.EvRevoke? && !e.EvCrash? && !e.EvLostAck?
  }

  ghost predicate Run(c: Config, ss: seq<State>, es: seq<Event>) {
    && |ss| == |es| + 1 && ss[0] == Init(c)
    && forall k {:trigger es[k]} :: 0 <= k < |es| ==> Next(c, ss[k], ss[k + 1], es[k])
  }

  function Last(ss: seq<State>): State
    requires ss != []
  {
    ss[|ss| - 1]
  }
}
