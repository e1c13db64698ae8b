/** One call of the worker's `_handle` when nothing interrupts it (crawler/worker.py,
    crawler/pipeline/distributed.py), and how the interleaved steps of Delivery play it. */
module Worker {
  import opened Frontier
  import Engine
  import D = Delivery

  /** The links that an exact seen-set lets through, in order. */
  function NewLinks(seen: set<Url>, links: seq<Url>): seq<Url>
    decreases |links|
  {
    if links == [] then []
    else if links[0] in seen then NewLinks(seen, links[1..])
    else [links[0]] + NewLinks(seen + {links[0]}, links[1..])
  }

  /** Exactly the links not seen before, each once. */
  lemma {:induction false} NewLinksExact(seen: set<Url>, links: seq<Url>)
    ensures forall u :: u in NewLinks(seen, links) <==> u in links && u !in seen
    ensures forall i, j :: 0 <= i < j < |NewLinks(seen, links)| ==> NewLinks(seen, links)[i] != NewLinks(seen, links)[j]
    decreases |links|
  {
    if links != [] {
      if links[0] in seen {
        NewLinksExact(seen, links[1..]);
      } else {
        NewLinksExact(seen + {links[0]}, links[1..]);
        var rest := NewLinks(seen + {links[0]}, links[1..]);
        assert links[0] !in rest;
      }
    }
  }

  /** In the order in which the page first names them. */
  lemma {:induction false} NewLinksInOrder(seen: set<Url>, links: seq<Url>, i: nat, j: nat)
    requires i < j < |NewLinks(seen, links)|
    ensures NamedFirst(links, NewLinks(seen, links)[i], NewLinks(seen, links)[j])
    decreases |links|
  {
    var first, rest := links[0], links[1..];
    var u, v := NewLinks(seen, links)[i], NewLinks(seen, links)[j];
    NewLinksExact(seen, links);
    assert v in NewLinks(seen, links) && u != v;
    if first in seen {
      NewLinksInOrder(seen, rest, i, j);
      hide *;
      NamedFirstShifts(first, rest, u, v);
      assert links == [first] + rest;
    } else if i > 0 {
      NewLinksInOrder(seen + {first}, rest, i - 1, j - 1);
      assert v != first by {
        NewLinksExact(seen + {first}, rest);
        assert v == NewLinks(seen + {first}, rest)[j - 1] && v in NewLinks(seen + {first}, rest);
      }
      NamedFirstShifts(first, rest, u, v);
      assert links == [first] + rest;
    } else {
      assert links[0] == u;
    }
  }

  /** The page names `u` before it names `v`. */
  ghost predicate NamedFirst(links: seq<Url>, u: Url, v: Url) {
    exists p :: 0 <= p < |links| && links[p] == u && NotBefore(links, v, p)
  }

  lemma NamedFirstShifts(first: Url, rest: seq<Url>, u: Url, v: Url)
    requires v != first && NamedFirst(rest, u, v)
    ensures NamedFirst([first] + rest, u, v)
  {
    var links := [first] + rest;
    var p :| 0 <= p < |rest| && rest[p] == u && NotBefore(rest, v, p);
    forall q | 0 <= q < |links| && links[q] == v
      ensures p + 1 < q
    {
      assert q > 0 && rest[q - 1] == v;
    }
    assert links[p + 1] == u && NotBefore(links, v, p + 1);
  }

  ghost predicate NotBefore(links: seq<Url>, u: Url, p: int) {
    forall q :: 0 <= q < |links| && links[q] == u ==> p < q
  }

  lemma NextLink(seen: set<Url>, links: seq<Url>, k: nat)
    requires k < |links|
    ensures NewLinks(seen, links[k..])
         == if links[k] in seen then NewLinks(seen, links[k + 1..])
            else [links[k]] + NewLinks(seen + {links[k]}, links[k + 1..])
    ensures AsSet(links[..k + 1]) == AsSet(links[..k]) + {links[k]}
    ensures AsSet(links[k..]) == AsSet(links[k + 1..]) + {links[k]}
  {
  }

  function AsSet(links: seq<Url>): set<Url> {
    set u | u in links
  }

  /** The messages for newly found children. */
  function Children(links: seq<Url>, depth: int): seq<D.Payload> {
    seq(|links|, k requires 0 <= k < |links| => D.Message(links[k], depth + 1, 0, 0.0))
  }

  lemma ChildrenAre(links: seq<Url>, depth: int)
    ensures |Children(links, depth)| == |links|
    ensures forall k :: 0 <= k < |links| ==>
              var child := Children(links, depth)[k];
              && child.Message? && child.url == links[k] && child.depth == depth + 1
              && child.attempts == 0 && child.notBefore == 0.0
  {
  }

  class CrawlWorker {
    const maxDepth: int
    const maxRetries: nat
    var frontier: seq<D.Payload>
    var retry: seq<D.Payload>
    var dlq: seq<D.Payload>
    var seen: set<Url>

    constructor (maxDepth: int, maxRetries: nat)
      ensures this.maxDepth == maxDepth && this.maxRetries == maxRetries
      ensures frontier == [] && retry == [] && dlq == [] && seen == {}
    {
      this.maxDepth, this.maxRetries := maxDepth, maxRetries;
      frontier, retry, dlq, seen := [], [], [], {};
    }

    /** `_schedule_retry`: exactly one copy goes on, to exactly one place. */
    method ScheduleRetry(m: D.Payload, now: real)
      requires m.Message?
      modifies `retry, `dlq
      ensures m.attempts >= maxRetries ==> dlq == old(dlq) + [m] && retry == old(retry)
      ensures m.attempts < maxRetries ==>
                dlq == old(dlq)
                && retry == old(retry) + [m.(attempts := m.attempts + 1, notBefore := now + D.Backoff(m.attempts + 1))]
    {
      if m.attempts >= maxRetries {
        dlq := dlq + [m];
        return;
      }
      var attempts := m.attempts + 1;
      retry := retry + [m.(attempts := attempts, notBefore := now + D.Backoff(attempts))];
    }

    method CheckAndAdd(u: Url) returns (added: bool)
      modifies `seen
      ensures added == (u !in old(seen)) && seen == old(seen) + {u}
    {
      added := u !in seen;
      seen := seen + {u};
    }

    /** `process_message` once the pipeline has answered: the unseen links of a fetched, original page
        above the depth limit are enqueued, each once, and all of its links are marked. */
    method ProcessMessage(m: D.Payload, result: Engine.Result)
      requires m.Message?
      modifies `frontier, `seen
      ensures var go := result.fetched && !result.duplicate && m.depth < maxDepth;
              && frontier == old(frontier) + (if go then Children(NewLinks(old(seen), result.links), m.depth) else [])
              && seen == old(seen) + (if go then AsSet(result.links) else {})
    {
      if !(result.fetched && !result.duplicate && m.depth < maxDepth) {
        return;
      }
      EnqueueNew(result.links, m.depth);
    }

    /** The loop over the links. */
    method EnqueueNew(links: seq<Url>, depth: int)
      modifies `frontier, `seen
      ensures frontier == old(frontier) + Children(NewLinks(old(seen), links), depth)
      ensures seen == old(seen) + AsSet(links)
    {
      ghost var seen0, all := seen, frontier + Children(NewLinks(seen, links), depth);
      RestEnds(seen0, links, depth);
      hide *;
      for k := 0 to |links|
        invariant seen == seen0 + AsSet(links[..k])
        invariant frontier + Rest(seen, links, k, depth) == all
      {
        RestStep(seen, links, k, depth);
        SeenStep(seen0, links, k);
        ghost var before := frontier;
        var added := CheckAndAdd(links[k]);
        if added {
          var child := D.Message(links[k], depth + 1, 0, 0.0);
          frontier := frontier + [child];
          assert (before + [child]) + Rest(seen, links, k + 1, depth)
              == before + ([child] + Rest(seen, links, k + 1, depth));
        }
      }
      RestEnds(seen, links, depth);
      assert links[..|links|] == links;
      assert frontier + [] == frontier;
    }

    /** `_handle` */
    method Handle(topic: D.Topic, payload: D.Payload, reply: D.Reply, now: real)
      modifies this
      ensures payload.Garbage? ==> Unchanged(old(frontier), old(retry), old(dlq), old(seen))
      ensures payload.Message? && topic == D.RetryTopic ==>
                frontier == old(frontier) + [payload.(notBefore := 0.0)]
                && retry == old(retry) && dlq == old(dlq) && seen == old(seen)
      ensures payload.Message? && topic == D.FrontierTopic && payload.depth > maxDepth ==>
                Unchanged(old(frontier), old(retry), old(dlq), old(seen))
      ensures payload.Message? && topic == D.FrontierTopic && payload.depth <= maxDepth && !reply.Answer? ==>
                && frontier == old(frontier) && seen == old(seen)
                && (payload.attempts >= maxRetries ==> dlq == old(dlq) + [payload] && retry == old(retry))
                && (payload.attempts < maxRetries ==>
                    dlq == old(dlq) && retry == old(retry) + [D.RetryOf(payload, now)])
      ensures payload.Message? && topic == D.FrontierTopic && payload.depth <= maxDepth && reply.Answer? ==>
                var go := reply.result.fetched && !reply.result.duplicate && payload.depth < maxDepth;
                && retry == old(retry) && dlq == old(dlq)
                && frontier == old(frontier)
                               + (if go then Children(NewLinks(old(seen), reply.result.links), payload.depth) else [])
                && seen == old(seen) + (if go then AsSet(reply.result.links) else {})
    {
      if payload.Garbage? {
        return;
      }
      if topic == D.RetryTopic {
        frontier := frontier + [payload.(notBefore := 0.0)];
        return;
      }
      if payload.depth > maxDepth {
        return;
      }
      match reply
      case Raised => ScheduleRetry(payload, now);
      case FetchError => ScheduleRetry(payload, now);
      case Answer(result) => ProcessMessage(payload, result);
    }

    ghost predicate Unchanged(f: seq<D.Payload>, r: seq<D.Payload>, d: seq<D.Payload>, s: set<Url>)
      reads this
    {
      frontier == f && retry == r && dlq == d && seen == s
    }
  }

  /** The messages still to come from link `k` on. */
  ghost function Rest(seen: set<Url>, links: seq<Url>, k: nat, depth: int): seq<D.Payload>
    requires k <= |links|
  {
    Children(NewLinks(seen, links[k..]), depth)
  }

  lemma RestStep(seen: set<Url>, links: seq<Url>, k: nat, depth: int)
    requires k < |links|
    ensures Rest(seen, links, k, depth)
         == if links[k] in seen then Rest(seen + {links[k]}, links, k + 1, depth)
            else [D.Message(links[k], depth + 1, 0, 0.0)] + Rest(seen + {links[k]}, links, k + 1, depth)
  {
    NextLink(seen, links, k);
    ChildrenSplit(links[k], NewLinks(seen + {links[k]}, links[k + 1..]), depth);
    assert links[k] in seen ==> seen + {links[k]} == seen;
  }

  lemma SeenStep(seen: set<Url>, links: seq<Url>, k: nat)
    requires k < |links|
    ensures seen + AsSet(links[..k]) + {links[k]} == seen + AsSet(links[..k + 1])
  {
    NextLink(seen, links, k);
  }

  lemma RestEnds(seen: set<Url>, links: seq<Url>, depth: int)
    ensures Rest(seen, links, |links|, depth) == []
            && Rest(seen, links, 0, depth) == Children(NewLinks(seen, links), depth)
    ensures seen + AsSet(links[..0]) == seen
  {
    assert links[0..] == links;
  }

  lemma ChildrenSplit(u: Url, rest: seq<Url>, depth: int)
    ensures Children([u] + rest, depth) == [D.Message(u, depth + 1, 0, 0.0)] + Children(rest, depth)
  {
  }

  // ---------------------------------------------------------------- played by the interleaved steps

  /** `n` steps of call `i` in a row. */
  ghost predicate Steps(c: D.Config, s: D.State, s': D.State, i: nat, n: nat)
    decreases n
  {
    if n == 0 then s' == s
    else exists mid: D.State :: D.TaskStep(c, s, mid, i) && Steps(c, mid, s', i, n - 1)
  }

  /** The log entries for newly found children. */
  function Entries(links: seq<Url>, depth: int, of: D.Rec): seq<D.Entry> {
    seq(|links|, k requires 0 <= k < |links| => D.Entry(D.Message(links[k], depth + 1, 0, 0.0), D.Child(of)))
  }

  /** `s'` after call `i` has marked and enqueued `links` to partition `p` and finished. */
  ghost predicate Played(s: D.State, s': D.State, i: nat, links: seq<Url>, p: nat, depth: int)
    requires i < |s.tasks| && p < |s.logs|
  {
    s' == D.SetPhase(s.(logs := s.logs[p := s.logs[p] + Entries(NewLinks(s.seen, links), depth, s.tasks[i].rec)],
                        seen := s.seen + AsSet(links)),
                     i, D.Done(D.Handled))
  }

  lemma OneStep(c: D.Config, s: D.State, mid: D.State, s': D.State, i: nat, n: nat)
    requires D.TaskStep(c, s, mid, i) && Steps(c, mid, s', i, n)
    ensures Steps(c, s, s', i, n + 1)
  {
  }

  ghost predicate OnPage(c: D.Config, s: D.State, i: nat, depth: int) {
    && i < |s.tasks| && D.Started(s, i) && D.InLog(s, s.tasks[i].rec)
    && D.EntryAt(s, s.tasks[i].rec).payload.Message? && D.EntryAt(s, s.tasks[i].rec).payload.depth == depth
  }

  lemma LastTurn(c: D.Config, s: D.State, i: nat, links: seq<Url>, p: nat, depth: int) returns (s': D.State)
    requires OnPage(c, s, i, depth) && s.tasks[i].phase == D.Gating(links, |links|) && p < |s.logs|
    ensures D.TaskStep(c, s, s', i) && Played(s, s', i, [], p, depth)
  {
    s' := D.SetPhase(s, i, D.Done(D.Handled));
    assert s.logs[p] + Entries([], depth, s.tasks[i].rec) == s.logs[p] && s.seen + AsSet([]) == s.seen;
    assert D.Work(c, s, s', i);
  }

  function Marked(s: D.State, i: nat, u: Url, phase: D.Phase): D.State
    requires i < |s.tasks|
  {
    D.SetPhase(s.(seen := s.seen + {u}), i, phase)
  }

  lemma SeenTurn(c: D.Config, s: D.State, i: nat, links: seq<Url>, k: nat, depth: int) returns (s1: D.State)
    requires OnPage(c, s, i, depth) && k < |links| && s.tasks[i].phase == D.Gating(links, k)
    ensures s1 == Marked(s, i, links[k], D.Gating(links, k + 1))
    ensures D.TaskStep(c, s, s1, i) && OnPage(c, s1, i, depth) && i < |s1.tasks|
            && s1.tasks[i].phase == D.Gating(links, k + 1)
  {
    s1 := Marked(s, i, links[k], D.Gating(links, k + 1));
    assert D.Gate(s, s1, i, links, k) && D.Work(c, s, s1, i);
  }

  function Enqueued(s: D.State, i: nat, u: Url, p: nat, depth: int, phase: D.Phase): D.State
    requires i < |s.tasks| && p < |s.logs|
  {
    Marked(D.Append(s, p, D.Entry(D.Message(u, depth + 1, 0, 0.0), D.Child(s.tasks[i].rec))), i, u, phase)
  }

  lemma NewTurn(c: D.Config, s: D.State, i: nat, links: seq<Url>, k: nat, p: nat, depth: int)
    returns (s1: D.State, s2: D.State)
    requires OnPage(c, s, i, depth) && k < |links| && s.tasks[i].phase == D.Gating(links, k) && links[k] !in s.seen
    requires D.On(c, p, D.FrontierTopic) && p < |s.logs|
    ensures D.TaskStep(c, s, s1, i) && D.TaskStep(c, s1, s2, i) && OnPage(c, s2, i, depth)
    ensures i < |s2.tasks| && s2.tasks[i].phase == D.Gating(links, k + 1) && |s2.logs| == |s.logs|
    ensures s2 == Enqueued(s, i, links[k], p, depth, D.Gating(links, k + 1))
  {
    s1 := Marked(s, i, links[k], D.Enqueueing(links, k));
    s2 := Enqueued(s, i, links[k], p, depth, D.Gating(links, k + 1));
    assert D.Gate(s, s1, i, links, k) && D.Work(c, s, s1, i);
    var e := D.Entry(D.Message(links[k], depth + 1, 0, 0.0), D.Child(s.tasks[i].rec));
    assert s2 == D.SetPhase(D.Append(s1, p, e), i, D.Gating(links, k + 1));
    assert D.Enqueue(c, s1, s2, i, links, k, depth) && D.Work(c, s1, s2, i);
  }

  /** The uninterrupted call over the remaining links is a run of single steps: mark, enqueue, mark, ... */
  lemma {:induction false} LinksPlayed(c: D.Config, s: D.State, i: nat, links: seq<Url>, k: nat, p: nat, depth: int)
    returns (s': D.State, n: nat)
    requires i < |s.tasks| && OnPage(c, s, i, depth) && s.tasks[i].phase == D.Gating(links, k) && k <= |links|
    requires D.On(c, p, D.FrontierTopic) && p < |s.logs|
    ensures Steps(c, s, s', i, n) && Played(s, s', i, links[k..], p, depth)
    decreases |links| - k
  {
    hide D.TaskStep, OnPage, Played;
    if k == |links| {
      s' := LastTurn(c, s, i, links, p, depth);
      assert links[k..] == [];
      assert Steps(c, s', s', i, 0);
      OneStep(c, s, s', s', i, 0);
      n := 1;
    } else if links[k] in s.seen {
      var s1 := SeenTurn(c, s, i, links, k, depth);
      s', n := LinksPlayed(c, s1, i, links, k + 1, p, depth);
      OneStep(c, s, s1, s', i, n);
      n := n + 1;
      SeenLinkPlayed(s, s', i, links, k, p, depth, D.Gating(links, k + 1));
    } else {
      var s1, s2 := NewTurn(c, s, i, links, k, p, depth);
      s', n := LinksPlayed(c, s2, i, links, k + 1, p, depth);
      OneStep(c, s1, s2, s', i, n);
      OneStep(c, s, s1, s', i, n + 1);
      n := n + 2;
      NewLinkPlayed(s, s', i, links, k, p, depth, D.Gating(links, k + 1));
    }
  }

  lemma SeenLinkPlayed(s: D.State, s': D.State, i: nat, links: seq<Url>, k: nat, p: nat, depth: int, phase: D.Phase)
    requires i < |s.tasks| && p < |s.logs| && k < |links| && links[k] in s.seen
    requires Played(Marked(s, i, links[k], phase), s', i, links[k + 1..], p, depth)
    ensures Played(s, s', i, links[k..], p, depth)
  {
    NextLink(s.seen, links, k);
    hide NewLinks, AsSet, Entries;
    assert s.seen + {links[k]} == s.seen;
    assert s.seen + AsSet(links[k + 1..]) == s.seen + AsSet(links[k..]);
    SetTwice(s.tasks, i, s.tasks[i].(phase := phase), s.tasks[i].(phase := D.Done(D.Handled)));
  }

  lemma NewLinkPlayed(s: D.State, s': D.State, i: nat, links: seq<Url>, k: nat, p: nat, depth: int, phase: D.Phase)
    requires i < |s.tasks| && p < |s.logs| && k < |links| && links[k] !in s.seen
    requires Played(Enqueued(s, i, links[k], p, depth, phase), s', i, links[k + 1..], p, depth)
    ensures Played(s, s', i, links[k..], p, depth)
  {
    var rec, u := s.tasks[i].rec, links[k];
    NextLink(s.seen, links, k);
    var rest := NewLinks(s.seen + {u}, links[k + 1..]);
    EntriesSplit(u, rest, depth, rec);
    assert (s.seen + {u}) + AsSet(links[k + 1..]) == s.seen + AsSet(links[k..]);
    var e := D.Entry(D.Message(u, depth + 1, 0, 0.0), D.Child(rec));
    Reassociate(s.logs[p], e, Entries(rest, depth, rec));
    SetTwice(s.logs, p, s.logs[p] + [e], s.logs[p] + Entries([u] + rest, depth, rec));
    SetTwice(s.tasks, i, D.Task(rec, phase), D.Task(rec, D.Done(D.Handled)));
    hide NewLinks, AsSet, Entries;
  }

  lemma Reassociate(log: seq<D.Entry>, e: D.Entry, rest: seq<D.Entry>)
    ensures (log + [e]) + rest == log + ([e] + rest)
  {
  }

  lemma SetTwice<T>(s: seq<T>, i: nat, a: T, b: T)
    requires i < |s|
    ensures s[i := a][i := b] == s[i := b]
  {
  }

  lemma EntriesSplit(u: Url, rest: seq<Url>, depth: int, of: D.Rec)
    ensures Entries([u] + rest, depth, of)
         == [D.Entry(D.Message(u, depth + 1, 0, 0.0), D.Child(of))] + Entries(rest, depth, of)
  {
  }

  /** A whole call on a frontier message whose page came back with links. */
  lemma HandlePlayed(c: D.Config, s: D.State, i: nat, result: Engine.Result, p: nat) returns (s': D.State, n: nat)
    requires i < |s.tasks| && s.tasks[i].phase == D.Fresh && D.Started(s, i)
    requires var r := s.tasks[i].rec;
             D.InLog(s, r) && D.On(c, r.partition, D.FrontierTopic)
             && D.EntryAt(s, r).payload.Message? && D.EntryAt(s, r).payload.depth < c.maxDepth
    requires result.fetched && !result.duplicate
    requires D.On(c, p, D.FrontierTopic) && p < |s.logs|
    ensures Steps(c, s, s', i, n)
    ensures Played(s, s', i, result.links, p, D.EntryAt(s, s.tasks[i].rec).payload.depth)
  {
    var depth := D.EntryAt(s, s.tasks[i].rec).payload.depth;
    var s1 := Answered(c, s, i, result);
    assert result.links[0..] == result.links;
    hide *;
    s', n := LinksPlayed(c, s1, i, result.links, 0, p, depth);
    OneStep(c, s, s1, s', i, n);
    PlayedBefore(s, s', i, D.Gating(result.links, 0), result.links, p, depth);
    n := n + 1;
  }

  /** The first step: the pipeline's answer. */
  lemma Answered(c: D.Config, s: D.State, i: nat, result: Engine.Result) returns (s1: D.State)
    requires i < |s.tasks| && s.tasks[i].phase == D.Fresh && D.Started(s, i)
    requires var r := s.tasks[i].rec;
             D.InLog(s, r) && D.On(c, r.partition, D.FrontierTopic)
             && D.EntryAt(s, r).payload.Message? && D.EntryAt(s, r).payload.depth < c.maxDepth
    requires result.fetched && !result.duplicate
    ensures s1 == D.SetPhase(s, i, D.Gating(result.links, 0))
    ensures |s1.logs| == |s.logs| && i < |s1.tasks| && s1.tasks[i].phase == D.Gating(result.links, 0)
    ensures D.TaskStep(c, s, s1, i) && OnPage(c, s1, i, D.EntryAt(s, s.tasks[i].rec).payload.depth)
  {
    s1 := D.SetPhase(s, i, D.AfterProcess(c, D.EntryAt(s, s.tasks[i].rec).payload.depth, D.Answer(result)));
    assert D.Work(c, s, s1, i);
  }

  lemma PlayedBefore(s: D.State, s': D.State, i: nat, phase: D.Phase, links: seq<Url>, p: nat, depth: int)
    requires i < |s.tasks| && p < |s.logs| && Played(D.SetPhase(s, i, phase), s', i, links, p, depth)
    ensures Played(s, s', i, links, p, depth)
  {
    SetTwice(s.tasks, i, s.tasks[i].(phase := phase), s.tasks[i].(phase := D.Done(D.Handled)));
    hide NewLinks, AsSet, Entries;
  }

  /** What the branches of `_handle` without links leave behind; they end with at most one send. */
  function Ended(c: D.Config, s: D.State, i: nat, reply: D.Reply, p: nat, q: nat, now: real): D.State
    requires i < |s.tasks| && D.InLog(s, s.tasks[i].rec) && p < |s.logs| && q < |s.logs|
  {
    var rec := s.tasks[i].rec;
    var m := D.EntryAt(s, rec).payload;
    if m.Garbage? then D.SetPhase(s, i, D.Done(D.Undecodable))
    else if D.On(c, rec.partition, D.RetryTopic) then
      D.SetPhase(D.Append(s, p, D.Entry(m.(notBefore := 0.0), D.Forward(rec))), i,
          D.Done(D.Republished(D.NextRec(s, p))))
    else if m.depth > c.maxDepth then D.SetPhase(s, i, D.Done(D.TooDeep))
    else if reply.Answer? then D.SetPhase(s, i, D.Done(D.Handled))
    else if m.attempts >= c.maxRetries then D.SetPhase(s.(dlq := s.dlq + [m]), i, D.Done(D.Dead(|s.dlq|)))
    else
      D.SetPhase(D.Append(s, q, D.Entry(D.RetryOf(m, now), D.Forward(rec))), i, D.Done(D.Retried(D.NextRec(s, q))))
  }

  /** A whole call in every other branch: undecodable, from the retry topic, too deep, nothing to expand, or failed. */
  lemma OtherBranchesPlayed(c: D.Config, s: D.State, i: nat, reply: D.Reply, p: nat, q: nat, now: real) returns (n: nat)
    requires i < |s.tasks| && s.tasks[i].phase == D.Fresh && D.Started(s, i) && D.InLog(s, s.tasks[i].rec)
    requires s.tasks[i].rec.partition < |c.topics|
    requires D.On(c, p, D.FrontierTopic) && D.On(c, q, D.RetryTopic) && p < |s.logs| && q < |s.logs|
    requires var m := D.EntryAt(s, s.tasks[i].rec).payload;
             m.Message? && reply.Answer? ==>
               !(reply.result.fetched && !reply.result.duplicate && m.depth < c.maxDepth)
    ensures Steps(c, s, Ended(c, s, i, reply, p, q, now), i, n)
  {
    var rec := s.tasks[i].rec;
    var m := D.EntryAt(s, rec).payload;
    var end := Ended(c, s, i, reply, p, q, now);
    if m.Message? && D.On(c, rec.partition, D.FrontierTopic) && m.depth <= c.maxDepth && !reply.Answer? {
      var failed := D.SetPhase(s, i, D.AfterProcess(c, m.depth, reply));
      assert D.Work(c, s, failed, i);
      FailureSent(c, failed, i, q, now);
      SetTwice(s.tasks, i, D.Task(rec, D.Retrying), end.tasks[i]);
      OneStep(c, failed, end, end, i, 0);
      OneStep(c, s, failed, end, i, 1);
      return 2;
    }
    if m.Message? && D.On(c, rec.partition, D.RetryTopic) {
      var sent := D.Append(s, p, D.Entry(m.(notBefore := 0.0), D.Forward(rec)));
      assert D.Send(c, s, sent, i, D.Republished(D.NextRec(s, p)));
    } else {
      assert D.Work(c, s, end, i);
    }
    OneStep(c, s, end, end, i, 0);
    return 1;
  }

  /** The single step that ends a failed call. */
  lemma FailureSent(c: D.Config, s: D.State, i: nat, q: nat, now: real)
    requires i < |s.tasks| && s.tasks[i].phase == D.Retrying && D.Started(s, i) && D.InLog(s, s.tasks[i].rec)
    requires D.EntryAt(s, s.tasks[i].rec).payload.Message? && D.On(c, q, D.RetryTopic) && q < |s.logs|
    ensures var rec := s.tasks[i].rec;
            var m := D.EntryAt(s, rec).payload;
            D.TaskStep(c, s, if m.attempts >= c.maxRetries
                then D.SetPhase(s.(dlq := s.dlq + [m]), i, D.Done(D.Dead(|s.dlq|)))
                             else D.SetPhase(D.Append(s, q, D.Entry(D.RetryOf(m, now), D.Forward(rec))), i,
                                             D.Done(D.Retried(D.NextRec(s, q)))), i)
  {
    var rec := s.tasks[i].rec;
    var m := D.EntryAt(s, rec).payload;
    if m.attempts >= c.maxRetries {
      assert D.Send(c, s, s.(dlq := s.dlq + [m]), i, D.Dead(|s.dlq|));
    } else {
      assert D.Send(c, s, D.Append(s, q, D.Entry(D.RetryOf(m, now), D.Forward(rec))), i, D.Retried(D.NextRec(s, q)));
    }
  }
}
