/** What every step of the crawl keeps, for any number of workers. */
module EngineSafety {
  import opened Frontier
  import opened Engine

  // ---------------------------------------------------------------- frontier contents

  ghost predicate Distinct(items: seq<Item>) {
    forall i, j :: 0 <= i < j < |items| ==> items[i].url != items[j].url
  }

  function Urls(items: seq<Item>): set<Url> {
    set item | item in items :: item.url
  }

  lemma UrlsAppend(items: seq<Item>, more: seq<Item>)
    ensures Urls(items + more) == Urls(items) + Urls(more)
  {
  }

  /** Expanding a page appends its new admissible links, once each, and nothing else. */
  lemma {:induction false} ExpandAppends(c: Config, domains: set<string>, q: Queue, depth: nat, links: seq<Url>)
    returns (news: seq<Item>)
    ensures Expand(c, domains, q, depth, links)
         == Queue(q.items + news, q.seen + Urls(news), q.unfinished + |news|)
    ensures Distinct(news) && Urls(news) !! q.seen
    ensures forall item :: item in news ==> item.depth == depth && item.url in links && Admissible(c, domains, item.url)
    ensures forall u :: u in links && Admissible(c, domains, u) ==> u in q.seen + Urls(news)
    ensures |news| <= |links|
    decreases |links|
  {
    if links == [] {
      news := [];
      assert q.seen + Urls(news) == q.seen;
    } else {
      var n := |links| - 1;
      var before := ExpandAppends(c, domains, q, depth, links[..n]);
      assert links == links[..n] + [links[n]];
      var item := Item(links[n], depth);
      if Admissible(c, domains, links[n]) && links[n] !in q.seen + Urls(before) {
        news := before + [item];
        UrlsAppend(before, [item]);
        assert q.items + before + [item] == q.items + news;
      } else {
        news := before;
      }
    }
  }

  lemma {:induction false} SeededItems(seeds: Seeds)
    ensures var q := Seeded(seeds);
            && Distinct(q.items) && q.seen == Urls(q.items) && q.unfinished == |q.items|
            && (forall item :: item in q.items ==> item.depth == 0)
            && (forall u :: u in q.seen <==> IsSeed(seeds, u))
    decreases |seeds|
  {
    if seeds != [] {
      var n := |seeds| - 1;
      SeededItems(seeds[..n]);
      assert seeds == seeds[..n] + [seeds[n]];
      if seeds[n].Some? {
        UrlsAppend(Seeded(seeds[..n]).items, [Item(seeds[n].value, 0)]);
      }
    }
  }

  // ---------------------------------------------------------------- the invariant

  /** A link of a fetched, non-duplicate page that passes the engine's filters. */
  ghost predicate Edge(c: Config, seeds: Seeds, s: State, u: Url, v: Url) {
    && u in s.results && !s.results[u].duplicate && v in s.results[u].links
    && Admissible(c, SeedDomains(seeds), v)
  }

  /** `item` is a seed, or was found on a taken page one link nearer to a seed. */
  ghost predicate Found(c: Config, seeds: Seeds, s: State, item: Item) {
    if item.depth == 0 then IsSeed(seeds, item.url)
    else exists parent :: parent in s.taken && parent.depth + 1 == item.depth && Edge(c, seeds, s, parent.url, item.url)
  }

  ghost predicate Expanded(c: Config, seeds: Seeds, s: State, item: Item) {
    item.depth < c.maxDepth ==> forall v :: Edge(c, seeds, s, item.url, v) ==> v in s.frontier.seen
  }

  function MaxDepth(c: Config): nat {
    if c.maxDepth < 0 then 0 else c.maxDepth
  }

  /** The most pages a crawl can fetch. */
  function PageBound(c: Config): nat {
    if c.maxPages <= 0 || c.workers == 0 then 0 else c.maxPages + c.workers - 1
  }

  /** Each URL enters the frontier once, and the frontier's counters add up. */
  ghost predicate Accounted(s: State) {
    && Distinct(History(s))
    && s.frontier.seen == Urls(History(s))
    && s.frontier.unfinished == |s.frontier.items| + |s.busy|
  }

  ghost predicate Workers(c: Config, s: State) {
    && (forall w :: w in s.busy ==> w < c.workers && s.busy[w] in s.taken && s.busy[w].url !in s.results)
    && (forall w, w' :: w in s.busy && w' in s.busy && w != w' ==> s.busy[w].url != s.busy[w'].url)
    && (forall u :: u in s.results ==> u in Urls(s.taken))
    && s.processed >= 0 && s.processed + |s.busy| <= PageBound(c)
  }

  ghost predicate Explored(c: Config, seeds: Seeds, s: State) {
    && (forall u :: IsSeed(seeds, u) ==> u in s.frontier.seen)
    && (forall item :: item in History(s) ==> Found(c, seeds, s, item) && item.depth <= MaxDepth(c))
    && (forall item :: item in History(s) && IsSeed(seeds, item.url) ==> item.depth == 0)
    && (forall item :: item in s.taken ==> Expanded(c, seeds, s, item))
  }

  ghost predicate Inv(c: Config, seeds: Seeds, s: State) {
    Accounted(s) && Workers(c, s) && Explored(c, seeds, s)
  }

  lemma InitInv(c: Config, seeds: Seeds)
    ensures Inv(c, seeds, Init(seeds))
  {
    SeededItems(seeds);
    assert History(Init(seeds)) == Seeded(seeds).items;
  }

  /** Worker numbers lie below `workers`, so no more than that many can be busy. */
  lemma {:induction false} FewBusy(busy: set<nat>, n: nat)
    requires forall w :: w in busy ==> w < n
    ensures |busy| <= n
  {
    if n == 0 {
      assert busy == {};
    } else {
      FewBusy(busy - {n - 1}, n - 1);
    }
  }

  /** The head of the queue has not been taken before. */
  lemma HeadIsNew(s: State)
    requires Accounted(s) && s.frontier.items != []
    ensures s.frontier.items[0].url !in Urls(s.taken)
  {
    var item := s.frontier.items[0];
    assert item == History(s)[|s.taken|];
    forall t | t in s.taken
      ensures t.url != item.url
    {
      var i :| 0 <= i < |s.taken| && s.taken[i] == t;
      assert History(s)[i] == t;
    }
  }

  lemma BusyCount(busy: map<nat, Item>, w: nat, item: Item)
    ensures w in busy ==> |busy - {w}| == |busy| - 1
    ensures w !in busy ==> |busy[w := item]| == |busy| + 1
  {
  }

  lemma TakeKeepsHistory(c: Config, s: State, s': State, w: nat)
    requires Take(c, s, s', w)
    ensures History(s') == History(s) && s'.frontier.seen == s.frontier.seen
    ensures s'.taken == s.taken + [s.frontier.items[0]]
  {
  }

  lemma TakeKeepsCount(c: Config, s: State, s': State, w: nat)
    requires Accounted(s) && Take(c, s, s', w)
    ensures Accounted(s') && History(s') == History(s)
    ensures w in s'.busy ==> |s'.busy| == |s.busy| + 1
  {
    TakeKeepsHistory(c, s, s', w);
    BusyCount(s.busy, w, s.frontier.items[0]);
    hide History, Distinct, Urls;
  }

  lemma TakeKeepsWorkers(c: Config, s: State, s': State, w: nat)
    requires Accounted(s) && Workers(c, s) && Take(c, s, s', w)
    ensures Workers(c, s')
  {
    var item := s.frontier.items[0];
    HeadIsNew(s);
    TakeKeepsCount(c, s, s', w);
    UrlsAppend(s.taken, [item]);
    hide Accounted, Urls;
    forall w' | w' in s.busy
      ensures s.busy[w'].url in Urls(s.taken)
    {
      UrlOf(s.taken, s.busy[w']);
    }
    if w in s'.busy {
      assert |s'.busy.Keys| == |s'.busy|;
      FewBusy(s'.busy.Keys, c.workers);
    }
  }

  lemma UrlOf(items: seq<Item>, item: Item)
    requires item in items
    ensures item.url in Urls(items)
  {
  }

  lemma TakeKeepsAccounts(c: Config, s: State, s': State, w: nat)
    requires Accounted(s) && Workers(c, s) && Take(c, s, s', w)
    ensures Accounted(s') && Workers(c, s') && History(s') == History(s)
    ensures s.frontier.items[0].url !in s.results
  {
    TakeKeepsCount(c, s, s', w);
    TakeKeepsWorkers(c, s, s', w);
    HeadIsNew(s);
  }

  lemma TakeKeepsInv(c: Config, seeds: Seeds, s: State, s': State, w: nat)
    requires Inv(c, seeds, s) && Take(c, s, s', w)
    ensures Inv(c, seeds, s')
  {
    TakeKeepsAccounts(c, s, s', w);
    var item := s.frontier.items[0];
    assert forall u, v :: Edge(c, seeds, s', u, v) <==> Edge(c, seeds, s, u, v);
    assert forall v :: !Edge(c, seeds, s', item.url, v);
    forall i | i in History(s')
      ensures Found(c, seeds, s', i)
    {
      assert Found(c, seeds, s, i);
    }
    forall i | i in s'.taken
      ensures Expanded(c, seeds, s', i)
    {
      assert i == item || Expanded(c, seeds, s, i);
    }
  }

  lemma FailKeepsInv(c: Config, seeds: Seeds, s: State, s': State, w: nat)
    requires Inv(c, seeds, s) && Fail(s, s', w)
    ensures Inv(c, seeds, s')
  {
    assert s'.busy.Keys == s.busy.Keys - {w};
    assert |s'.busy| == |s'.busy.Keys| && |s.busy| == |s.busy.Keys|;
    assert History(s') == History(s);
    assert forall u, v :: Edge(c, seeds, s', u, v) <==> Edge(c, seeds, s, u, v);
    forall i | i in History(s')
      ensures Found(c, seeds, s', i)
    {
      assert Found(c, seeds, s, i);
    }
    forall i | i in s'.taken
      ensures Expanded(c, seeds, s', i)
    {
      assert Expanded(c, seeds, s, i);
    }
  }

  /** The items a `Finish` step adds to the frontier. */
  lemma HandledAppends(c: Config, seeds: Seeds, s: State, item: Item, r: Result) returns (news: seq<Item>)
    ensures Handled(c, SeedDomains(seeds), s.frontier, item, r)
         == Queue(s.frontier.items + news, s.frontier.seen + Urls(news), s.frontier.unfinished + |news|)
    ensures Distinct(news) && Urls(news) !! s.frontier.seen
    ensures forall i :: i in news ==> i.depth == item.depth + 1
    ensures forall i :: i in news ==> i.url in r.links && Admissible(c, SeedDomains(seeds), i.url)
    ensures news != [] ==> !r.duplicate && item.depth < c.maxDepth && r.links != []
    ensures item.depth < c.maxDepth && !r.duplicate ==>
              forall u :: u in r.links && Admissible(c, SeedDomains(seeds), u) ==> u in s.frontier.seen + Urls(news)
  {
    if r.duplicate || item.depth >= c.maxDepth {
      news := [];
      assert s.frontier.seen + Urls(news) == s.frontier.seen;
    } else {
      news := ExpandAppends(c, SeedDomains(seeds), s.frontier, item.depth + 1, r.links);
    }
  }

  lemma DistinctAppend(items: seq<Item>, more: seq<Item>)
    requires Distinct(items) && Distinct(more) && Urls(items) !! Urls(more)
    ensures Distinct(items + more)
  {
    forall i, j | 0 <= i < j < |items + more|
      ensures (items + more)[i].url != (items + more)[j].url
    {
      if i < |items| <= j {
        assert items[i].url in Urls(items) && more[j - |items|].url in Urls(more);
      }
    }
  }

  lemma FinishKeepsAccounts(s: State, s': State, w: nat, news: seq<Item>)
    requires Accounted(s) && w in s.busy && s'.busy == s.busy - {w} && s'.taken == s.taken
    requires s'.frontier
             == Queue(s.frontier.items + news, s.frontier.seen + Urls(news), s.frontier.unfinished + |news| - 1)
    requires Distinct(news) && Urls(news) !! s.frontier.seen
    ensures Accounted(s') && History(s') == History(s) + news
  {
    assert s'.busy.Keys == s.busy.Keys - {w};
    assert |s'.busy| == |s'.busy.Keys| && |s.busy| == |s.busy.Keys|;
    assert History(s') == History(s) + news;
    UrlsAppend(History(s), news);
    DistinctAppend(History(s), news);
  }

  lemma FinishKeepsWorkers(c: Config, s: State, s': State, w: nat, r: Result)
    requires Workers(c, s) && w in s.busy && s'.busy == s.busy - {w} && s'.taken == s.taken
    requires s'.results == s.results[s.busy[w].url := r]
    requires s'.processed == s.processed + (if r.fetched then 1 else 0)
    ensures Workers(c, s')
  {
    assert s'.busy.Keys == s.busy.Keys - {w};
    assert |s'.busy| == |s'.busy.Keys| && |s.busy| == |s.busy.Keys|;
    assert s.busy[w] in s.taken;
  }

  lemma FinishKeepsInv(c: Config, seeds: Seeds, s: State, s': State, w: nat, r: Result)
    requires Inv(c, seeds, s) && Finish(c, seeds, s, s', w, r)
    ensures Inv(c, seeds, s')
  {
    var item := s.busy[w];
    var news := HandledAppends(c, seeds, s, item, r);
    FinishKeepsAccounts(s, s', w, news);
    FinishKeepsWorkers(c, s, s', w, r);
    assert item in s.taken && item in History(s);
    forall u, v
      ensures Edge(c, seeds, s, u, v) ==> Edge(c, seeds, s', u, v)
      ensures u != item.url && Edge(c, seeds, s', u, v) ==> Edge(c, seeds, s, u, v)
    {
    }
    forall i | i in History(s')
      ensures Found(c, seeds, s', i) && i.depth <= MaxDepth(c)
    {
      if i in History(s) {
        assert Found(c, seeds, s, i);
      } else {
        assert i in news;
        assert item in s'.taken && item.depth + 1 == i.depth && Edge(c, seeds, s', item.url, i.url);
      }
    }
    forall t | t in s'.taken
      ensures Expanded(c, seeds, s', t)
    {
      assert Expanded(c, seeds, s, t);
      if t.url == item.url {
        SameItem(s, t, item);
      }
    }
  }

  lemma SameItem(s: State, a: Item, b: Item)
    requires Distinct(History(s)) && a in History(s) && b in History(s) && a.url == b.url
    ensures a == b
  {
  }

  lemma StepKeepsInv(c: Config, seeds: Seeds, s: State, s': State)
    requires Inv(c, seeds, s) && Step(c, seeds, s, s')
    ensures Inv(c, seeds, s')
  {
    var w :| WorkerStep(c, seeds, s, s', w);
    if Take(c, s, s', w) {
      TakeKeepsInv(c, seeds, s, s', w);
    } else if Fail(s, s', w) {
      FailKeepsInv(c, seeds, s, s', w);
    } else {
      var r :| Finish(c, seeds, s, s', w, r);
      FinishKeepsInv(c, seeds, s, s', w, r);
    }
  }

  /** In every interleaving of any number of workers, whatever the pipeline reports. */
  lemma {:induction false} RunInv(c: Config, seeds: Seeds, ss: seq<State>)
    requires Run(c, seeds, ss)
    ensures Inv(c, seeds, Last(ss))
    decreases |ss|
  {
    if |ss| == 1 {
      InitInv(c, seeds);
    } else {
      var n := |ss| - 1;
      RunPrefix(c, seeds, ss);
      hide Run, Step, Inv;
      RunInv(c, seeds, ss[..n]);
      StepKeepsInv(c, seeds, ss[n - 1], ss[n]);
    }
  }

  lemma RunPrefix(c: Config, seeds: Seeds, ss: seq<State>)
    requires Run(c, seeds, ss) && |ss| > 1
    ensures var n := |ss| - 1; Run(c, seeds, ss[..n]) && Step(c, seeds, ss[n - 1], ss[n])
  {
  }
}
