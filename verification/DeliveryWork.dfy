/** How much work delivery has before it, and that each step of a calm run uses up some. */
module DeliveryWork {
  import opened Delivery
  import opened DeliverySafety
  import opened Lineage

  // ---------------------------------------------------------------- what is left to do

  /** A unit of work: a record to fetch, a call to begin, a step of a call; a partition to assign, a batch
      to begin and to commit. */
  datatype Token =
    | Unread(p: nat, o: nat) | Waiting(i: nat) | Step(i: nat, n: nat)
    | Unowned(p: nat) | Batch(w: nat, n: nat)

  /** The steps a call in this phase has before it. */
  function StepsLeft(phase: Phase): nat {
    match phase
    case Gating(links, k) => if k <= |links| then 2 * (|links| - k) + 2 else 2
    case Enqueueing(links, k) => if k <= |links| then 2 * (|links| - k) + 1 else 1
    case Retrying => 1
    case _ => 0
  }

  function BatchSteps(w: Worker): nat {
    if w.handling then 1 else if w.batch != {} then 2 else 0
  }

  ghost predicate ToDo(s: State, t: Token) {
    match t
    case Unread(p, o) => p < |s.logs| && p < |s.position| && s.position[p] <= o < |s.logs[p]|
    case Waiting(i) => i < |s.tasks| && s.tasks[i].phase.Fresh?
    case Step(i, n) => i < |s.tasks| && n < StepsLeft(s.tasks[i].phase)
    case Unowned(p) => p < |s.logs| && p !in s.owner
    case Batch(w, n) => w in s.workers && n < BatchSteps(s.workers[w])
  }

  /** Depths are counted from `lo`; what is too deep leads nowhere. */
  function Height(c: Config, lo: int, depth: int): int {
    if depth > c.maxDepth then 0 else depth - lo
  }

  /** Children come after their page, and later copies of a message after earlier ones. */
  function Place(c: Config, height: int, rank: int): int {
    height * (2 * c.maxRetries + 2) + 2 * c.maxRetries + 1 - rank
  }

  ghost function PlaceOf(c: Config, lo: int, s: State, r: Rec): int {
    if IsMessage(s, r) then Place(c, Height(c, lo, EntryAt(s, r).payload.depth), Rank(c, s, r)) else 0
  }

  function Levels(c: Config, lo: int): nat {
    if c.maxDepth > lo then c.maxDepth - lo else 0
  }

  function Top(c: Config, lo: int): int {
    3 * Place(c, Levels(c, lo) + 1, 2 * c.maxRetries + 1)
  }

  ghost function Index(c: Config, lo: int, s: State, t: Token): int {
    match t
    case Unread(p, o) => 3 * PlaceOf(c, lo, s, Rec(p, o))
    case Waiting(i) => if i < |s.tasks| then 3 * PlaceOf(c, lo, s, s.tasks[i].rec) + 1 else 0
    case Step(i, n) => if i < |s.tasks| then 3 * PlaceOf(c, lo, s, s.tasks[i].rec) + 2 else 0
    case Unowned(_) => Top(c, lo)
    case Batch(_, _) => Top(c, lo)
  }

  lemma HigherPlace(c: Config, h: int, rank: int, h': int, rank': int)
    requires rank <= 2 * c.maxRetries + 1 && 0 <= rank'
    ensures h' > h && 0 <= rank && rank' <= 2 * c.maxRetries ==> Place(c, h', rank') > Place(c, h, rank)
    ensures h' == h && rank' < rank ==> Place(c, h', rank') > Place(c, h, rank)
  {
    var m := 2 * c.maxRetries + 2;
    if h' > h {
      assert (h' - h) * m == h' * m - h * m;
      Multiple(h' - h, m);
    }
  }

  lemma Multiple(a: int, m: nat)
    requires a > 0
    ensures a * m >= m
  {
  }

  ghost predicate Above(lo: int, s: State) {
    forall r :: IsMessage(s, r) ==> EntryAt(s, r).payload.depth >= lo
  }

  /** What the measure relies on, besides the invariant of calm runs: no depth below `lo`, and only pages
      above the depth limit are expanded. */
  ghost predicate Bounded(c: Config, lo: int, s: State) {
    && Above(lo, s)
    && Expanders(c, s)
  }

  /** Only pages above the depth limit are expanded. */
  ghost predicate Expanders(c: Config, s: State) {
    forall i :: 0 <= i < |s.tasks| && Expanding(s.tasks[i].phase) ==>
      IsMessage(s, s.tasks[i].rec) && EntryAt(s, s.tasks[i].rec).payload.depth < c.maxDepth
  }

  predicate Expanding(phase: Phase) {
    phase.Gating? || phase.Enqueueing?
  }

  ghost predicate Ready(c: Config, lo: int, s: State) {
    CalmInv(c, s) && Bounded(c, lo, s)
  }

  /** An unfinished piece of work is done, and all that comes up anew has a higher index. */
  ghost predicate Consumes(c: Config, lo: int, s: State, s': State, done: Token) {
    && ToDo(s, done) && !ToDo(s', done)
    && forall t :: ToDo(s', t) ==>
         if ToDo(s, t) then Index(c, lo, s', t) == Index(c, lo, s, t) else Index(c, lo, s', t) > Index(c, lo, s, done)
  }

  predicate Inner(e: Event) {
    Calm(e) && !e.EvPublish?
  }

  /** Records keep their places. */
  lemma PlaceStays(c: Config, lo: int, s: State, s': State, r: Rec)
    requires Grows(s, s') && InLog(s, r)
    ensures PlaceOf(c, lo, s', r) == PlaceOf(c, lo, s, r)
  {
    GrowsLogs(s, s', r);
  }

  lemma IndexStays(c: Config, lo: int, s: State, s': State, t: Token)
    requires Grows(s, s') && Tasks(c, s) && ToDo(s, t)
    ensures Index(c, lo, s', t) == Index(c, lo, s, t)
  {
    match t
    case Unread(p, o) => PlaceStays(c, lo, s, s', Rec(p, o));
    case Waiting(i) => PlaceStays(c, lo, s, s', s.tasks[i].rec);
    case Step(i, n) => PlaceStays(c, lo, s, s', s.tasks[i].rec);
    case _ =>
  }

  lemma AssignConsumes(c: Config, lo: int, s: State, s': State, p: nat, w: nat)
    requires Ready(c, lo, s) && Assign(s, s', p, w) && Grows(s, s')
    ensures Consumes(c, lo, s, s', Unowned(p))
  {
    forall t | ToDo(s', t)
      ensures ToDo(s, t) && Index(c, lo, s', t) == Index(c, lo, s, t)
    {
      assert s.position[p] == s.committed[p];
      assert ToDo(s, t);
      IndexStays(c, lo, s, s', t);
    }
  }

  lemma BeginConsumes(c: Config, lo: int, s: State, s': State, w: nat)
    requires Ready(c, lo, s) && Begin(s, s', w) && Grows(s, s')
    ensures Consumes(c, lo, s, s', Batch(w, 1))
  {
    forall t | ToDo(s', t)
      ensures ToDo(s, t) && Index(c, lo, s', t) == Index(c, lo, s, t)
    {
      assert ToDo(s, t);
      IndexStays(c, lo, s, s', t);
    }
  }

  lemma CommitConsumes(c: Config, lo: int, s: State, s': State, w: nat)
    requires Ready(c, lo, s) && Commit(s, s', w) && Grows(s, s')
    ensures Consumes(c, lo, s, s', Batch(w, 0))
  {
    forall t | ToDo(s', t)
      ensures ToDo(s, t) && Index(c, lo, s', t) == Index(c, lo, s, t)
    {
      assert ToDo(s, t);
      IndexStays(c, lo, s, s', t);
    }
  }

  lemma BelowTop(c: Config, lo: int, s: State, r: Rec)
    requires Ready(c, lo, s) && InLog(s, r)
    ensures 0 <= PlaceOf(c, lo, s, r) && 3 * PlaceOf(c, lo, s, r) + 2 < Top(c, lo)
  {
    if IsMessage(s, r) {
      RankRange(c, s, r);
      PlaceInRange(c, Height(c, lo, EntryAt(s, r).payload.depth), Levels(c, lo), Rank(c, s, r));
    } else {
      PlaceInRange(c, 0, Levels(c, lo), 2 * c.maxRetries + 1);
    }
    hide Place;
  }

  lemma PlaceInRange(c: Config, h: int, levels: int, rank: int)
    requires 0 <= h <= levels && 0 <= rank <= 2 * c.maxRetries + 1
    ensures 0 <= Place(c, h, rank) < Place(c, levels + 1, 2 * c.maxRetries + 1)
    ensures Place(c, 0, 2 * c.maxRetries + 1) == 0
  {
    var m := 2 * c.maxRetries + 2;
    TimesMonotone(0, h, m);
    TimesMonotone(h + 1, levels + 1, m);
    assert (h + 1) * m == h * m + m;
  }

  lemma TimesMonotone(a: int, b: int, m: nat)
    requires a <= b
    ensures a * m <= b * m
  {
    assert (b - a) * m == b * m - a * m;
    if a < b {
      Multiple(b - a, m);
    }
  }

  lemma FetchConsumes(c: Config, lo: int, s: State, s': State, w: nat, p: nat)
    requires Ready(c, lo, s) && Fetch(s, s', w, p) && Grows(s, s')
    ensures p < |s.position| && Consumes(c, lo, s, s', Unread(p, s.position[p]))
  {
    var r := Rec(p, s.position[p]);
    BelowTop(c, lo, s, r);
    PlaceStays(c, lo, s, s', r);
    forall t | ToDo(s', t)
      ensures if ToDo(s, t) then Index(c, lo, s', t) == Index(c, lo, s, t)
              else Index(c, lo, s', t) > Index(c, lo, s, Unread(p, r.offset))
    {
      if ToDo(s, t) {
        IndexStays(c, lo, s, s', t);
      } else {
        assert t == Waiting(|s.tasks|) || t.Batch?;
      }
    }
  }

  // ---------------------------------------------------------------- one step of a call

  /** A record that a step writes: what it is and that it has not been read. */
  lemma NewRecord(s: State, s': State, p: nat, e: Entry, t: Token)
    requires p < |s.logs| && s'.logs == Append(s, p, e).logs && s'.position == s.position
    requires t.Unread? && ToDo(s', t) && !ToDo(s, t)
    ensures Rec(t.p, t.o) == NextRec(s, p) && InLog(s', NextRec(s, p)) && EntryAt(s', NextRec(s, p)) == e
  {
  }

  /** The token that a step of call `i` uses up. */
  function UsedUp(s: State, i: nat): Token
    requires i < |s.tasks|
  {
    if s.tasks[i].phase.Fresh? then Waiting(i)
    else var n := StepsLeft(s.tasks[i].phase); Step(i, if n > 0 then n - 1 else 0)
  }

  /** The step leaves the logs alone, or writes a record whose place is later. */
  ghost predicate WritesLater(c: Config, lo: int, s: State, s': State, place: int) {
    forall p: nat, o: nat :: ToDo(s', Unread(p, o)) && !ToDo(s, Unread(p, o)) ==> PlaceOf(c, lo, s', Rec(p, o)) > place
  }

  /** A call that moves on, with whatever it writes coming later, uses up its token. */
  lemma CallConsumes(c: Config, lo: int, s: State, s': State, base: State, i: nat, phase: Phase)
    requires Tasks(c, s) && Grows(s, s') && i < |s.tasks| && base.tasks == s.tasks && s' == SetPhase(base, i, phase)
    requires base.position == s.position && base.owner == s.owner && base.workers == s.workers
    requires !phase.Fresh? && (s.tasks[i].phase.Fresh? || StepsLeft(phase) < StepsLeft(s.tasks[i].phase))
    requires WritesLater(c, lo, s, s', PlaceOf(c, lo, s, s.tasks[i].rec))
    ensures Consumes(c, lo, s, s', UsedUp(s, i))
  {
    assert TaskOk(c, s, s.tasks[i]);
    PlaceStays(c, lo, s, s', s.tasks[i].rec);
    forall t | ToDo(s', t)
      ensures if ToDo(s, t) then Index(c, lo, s', t) == Index(c, lo, s, t)
              else Index(c, lo, s', t) > Index(c, lo, s, UsedUp(s, i))
    {
      if ToDo(s, t) {
        IndexStays(c, lo, s, s', t);
      } else {
        assert t.Unread? || (t.Step? && t.i == i && s.tasks[i].phase.Fresh?);
      }
    }
  }

  lemma ChildLater(c: Config, lo: int, s: State, s': State, i: nat, p: nat, e: Entry)
    requires Ready(c, lo, s) && i < |s.tasks| && s.tasks[i].phase.Enqueueing? && On(c, p, FrontierTopic) && p < |s.logs|
    requires s'.logs == Append(s, p, e).logs && s'.position == s.position && e.payload.Message?
    requires TaskOk(c, s, s.tasks[i]) && e.payload.attempts == 0
    requires e.payload.depth == EntryAt(s, s.tasks[i].rec).payload.depth + 1
    ensures WritesLater(c, lo, s, s', PlaceOf(c, lo, s, s.tasks[i].rec))
  {
    var r := s.tasks[i].rec;
    RankRange(c, s, r);
    HigherPlace(c, Height(c, lo, e.payload.depth - 1), Rank(c, s, r), Height(c, lo, e.payload.depth), 2 * c.maxRetries);
    NewPlace(c, lo, s, s', p, e, 2 * c.maxRetries);
    hide Place;
  }

  /** The place of the one new record. */
  lemma NewPlace(c: Config, lo: int, s: State, s': State, p: nat, e: Entry, rank: int)
    requires p < |s.logs| && s'.logs == Append(s, p, e).logs && s'.position == s.position && e.payload.Message?
    requires rank == 2 * (c.maxRetries - e.payload.attempts) + if On(c, p, RetryTopic) then 1 else 0
    ensures forall q: nat, o: nat :: ToDo(s', Unread(q, o)) && !ToDo(s, Unread(q, o)) ==>
              PlaceOf(c, lo, s', Rec(q, o)) == Place(c, Height(c, lo, e.payload.depth), rank)
  {
    forall q: nat, o: nat | ToDo(s', Unread(q, o)) && !ToDo(s, Unread(q, o))
      ensures PlaceOf(c, lo, s', Rec(q, o)) == Place(c, Height(c, lo, e.payload.depth), rank)
    {
      NewRecord(s, s', p, e, Unread(q, o));
    }
  }

  /** A later copy of the message of call `i`. */
  lemma CopyLater(c: Config, lo: int, s: State, s': State, i: nat, p: nat, e: Entry)
    requires Ready(c, lo, s) && i < |s.tasks| && p < |s.logs| && IsMessage(s, s.tasks[i].rec)
    requires s'.logs == Append(s, p, e).logs && s'.position == s.position && e.payload.Message?
    requires e.payload.depth == EntryAt(s, s.tasks[i].rec).payload.depth && 0 <= e.payload.attempts <= c.maxRetries
    requires 2 * (c.maxRetries - e.payload.attempts) + (if On(c, p, RetryTopic) then 1 else 0)
           < Rank(c, s, s.tasks[i].rec)
    ensures WritesLater(c, lo, s, s', PlaceOf(c, lo, s, s.tasks[i].rec))
  {
    var r, h := s.tasks[i].rec, Height(c, lo, e.payload.depth);
    var rank := 2 * (c.maxRetries - e.payload.attempts) + if On(c, p, RetryTopic) then 1 else 0;
    RankRange(c, s, r);
    HigherPlace(c, h, Rank(c, s, r), h, rank);
    NewPlace(c, lo, s, s', p, e, rank);
    hide Place;
  }

  lemma NothingWritten(c: Config, lo: int, s: State, s': State, place: int)
    requires s'.logs == s.logs && s'.position == s.position
    ensures WritesLater(c, lo, s, s', place)
  {
  }

  lemma WorkWritesLater(c: Config, lo: int, s: State, s': State, i: nat)
    requires Ready(c, lo, s) && Work(c, s, s', i) && s'.position == s.position
    ensures WritesLater(c, lo, s, s', PlaceOf(c, lo, s, s.tasks[i].rec))
  {
    assert TaskOk(c, s, s.tasks[i]);
    hide CalmInv, Bounded;
    if s.tasks[i].phase.Enqueueing? && s'.logs != s.logs {
      var links, k := s.tasks[i].phase.links, s.tasks[i].phase.next;
      var e := Entry(Message(links[k], EntryAt(s, s.tasks[i].rec).payload.depth + 1, 0, 0.0), Child(s.tasks[i].rec));
      var p: nat :| On(c, p, FrontierTopic) && p < |s.logs| && s'.logs == Append(s, p, e).logs;
      ChildLater(c, lo, s, s', i, p, e);
    } else {
      NothingWritten(c, lo, s, s', PlaceOf(c, lo, s, s.tasks[i].rec));
    }
  }

  lemma WorkGoesOn(c: Config, s: State, s': State, i: nat)
    requires Work(c, s, s', i)
    ensures i < |s.tasks| == |s'.tasks| && !s'.tasks[i].phase.Fresh?
    ensures s.tasks[i].phase.Fresh? || StepsLeft(s'.tasks[i].phase) < StepsLeft(s.tasks[i].phase)
  {
  }

  lemma SendWritesLater(c: Config, lo: int, s: State, sent: State, i: nat, outcome: Outcome)
    requires Ready(c, lo, s) && Send(c, s, sent, i, outcome)
    ensures sent.position == s.position && WritesLater(c, lo, s, sent, PlaceOf(c, lo, s, s.tasks[i].rec))
    ensures s.tasks[i].phase.Fresh? || s.tasks[i].phase.Retrying?
  {
    var t := s.tasks[i];
    var m := EntryAt(s, t.rec).payload;
    assert TaskOk(c, s, t);
    RankRange(c, s, t.rec);
    hide Bounded, OneCall, Chained, Offsets;
    if t.phase.Fresh? {
      var p: nat :| On(c, p, FrontierTopic) && p < |s.logs|
          && sent == Append(s, p, Entry(m.(notBefore := 0.0), Forward(t.rec)));
      CopyLater(c, lo, s, sent, i, p, Entry(m.(notBefore := 0.0), Forward(t.rec)));
    } else if m.attempts >= c.maxRetries {
      NothingWritten(c, lo, s, sent, PlaceOf(c, lo, s, t.rec));
    } else {
      var p: nat, now :| On(c, p, RetryTopic) && p < |s.logs|
          && sent == Append(s, p, Entry(RetryOf(m, now), Forward(t.rec)));
      CopyLater(c, lo, s, sent, i, p, Entry(RetryOf(m, now), Forward(t.rec)));
    }
  }

  lemma TaskConsumes(c: Config, lo: int, s: State, s': State, i: nat)
    requires Ready(c, lo, s) && TaskStep(c, s, s', i) && Grows(s, s')
    ensures i < |s.tasks| && Consumes(c, lo, s, s', UsedUp(s, i))
  {
    if Work(c, s, s', i) {
      var base, phase := WorkShape(c, s, s', i);
      WorkGoesOn(c, s, s', i);
      WorkWritesLater(c, lo, s, s', i);
      assert phase == s'.tasks[i].phase;
      hide Work, Send, Ready, Grows, Tasks;
      CallConsumes(c, lo, s, s', base, i, phase);
    } else {
      var sent: State, outcome :|
        Send(c, s, sent, i, outcome) && i < |sent.tasks| && s' == SetPhase(sent, i, Done(outcome));
      SendWritesLater(c, lo, s, sent, i, outcome);
      SendKeepsRest(c, s, sent, i, outcome);
      assert WritesLater(c, lo, s, s', PlaceOf(c, lo, s, s.tasks[i].rec)) by {
        hide *;
        SameLogs(c, lo, s, sent, s', PlaceOf(c, lo, s, s.tasks[i].rec));
      }
      hide Work, Send, Ready, Grows, Tasks;
      CallConsumes(c, lo, s, s', sent, i, Done(outcome));
    }
  }

  lemma SendKeepsRest(c: Config, s: State, sent: State, i: nat, outcome: Outcome)
    requires Send(c, s, sent, i, outcome)
    ensures sent.tasks == s.tasks && sent.owner == s.owner && sent.workers == s.workers && sent.position == s.position
  {
  }

  lemma SameLogs(c: Config, lo: int, s: State, a: State, b: State, place: int)
    requires WritesLater(c, lo, s, a, place) && a.logs == b.logs && a.position == b.position
    ensures WritesLater(c, lo, s, b, place)
  {
    forall p: nat, o: nat | ToDo(b, Unread(p, o)) && !ToDo(s, Unread(p, o))
      ensures PlaceOf(c, lo, b, Rec(p, o)) > place
    {
      assert ToDo(a, Unread(p, o));
      assert PlaceOf(c, lo, a, Rec(p, o)) == PlaceOf(c, lo, b, Rec(p, o));
    }
  }
}
