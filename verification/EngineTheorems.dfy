/** What a crawl achieves: it stops, it is breadth-first, and where several workers spoil that. */
module EngineTheorems {
  import opened Frontier
  import opened Engine
  import opened EngineSafety

  /** Whatever the workers and the pipeline do: each URL is taken at most once, no more pages are fetched
      than the bound, and the queue's counter is the work that is left. */
  lemma CrawlSafety(c: Config, seeds: Seeds, ss: seq<State>)
    requires Run(c, seeds, ss)
    ensures var s := Last(ss);
            && (forall i, j :: 0 <= i < j < |s.taken| ==> s.taken[i].url != s.taken[j].url)
            && s.processed <= PageBound(c)
            && s.frontier.unfinished == |s.frontier.items| + |s.busy|
  {
    var s := Last(ss);
    RunInv(c, seeds, ss);
    forall i, j | 0 <= i < j < |s.taken|
      ensures s.taken[i].url != s.taken[j].url
    {
      assert History(s)[i] == s.taken[i] && History(s)[j] == s.taken[j];
    }
  }

  /** The crawl stays inside: whatever is neither a seed nor short enough and in an allowed domain
      (the listed ones, or else, if asked for, those of the seeds) is never enqueued. */
  lemma CrawlStaysInside(c: Config, seeds: Seeds, ss: seq<State>, item: Item)
    requires Run(c, seeds, ss) && item in History(Last(ss)) && !IsSeed(seeds, item.url)
    ensures |item.url.text| <= c.maxUrlLength && 0 < item.depth <= c.maxDepth
    ensures c.allowedDomains.Some? ==> item.url.domain in c.allowedDomains.value
    ensures c.allowedDomains.None? && c.sameDomainOnly ==> exists u :: IsSeed(seeds, u) && u.domain == item.url.domain
  {
    var s := Last(ss);
    RunInv(c, seeds, ss);
    assert Found(c, seeds, s, item);
    assert Admissible(c, SeedDomains(seeds), item.url);
    if c.allowedDomains.None? && c.sameDomainOnly {
      var seed :| seed in seeds && seed.Some? && seed.value.domain == item.url.domain;
      assert IsSeed(seeds, seed.value);
    }
  }

  /** The converse: all seeds are taken in, and so is every link of an expanded page that is short enough and
      in an allowed domain (a listed one, or else, if asked for, that of some seed). */
  lemma CrawlTakesIn(c: Config, seeds: Seeds, ss: seq<State>, item: Item, u: Url)
    requires Run(c, seeds, ss)
    ensures IsSeed(seeds, u) ==> u in Last(ss).frontier.seen
    ensures var s := Last(ss);
            && item in s.taken && item.depth < c.maxDepth
            && item.url in s.results && !s.results[item.url].duplicate && u in s.results[item.url].links
            && |u.text| <= c.maxUrlLength
            && (c.allowedDomains.Some? ==> u.domain in c.allowedDomains.value)
            && (c.allowedDomains.None? && c.sameDomainOnly ==>
                  exists seed :: IsSeed(seeds, seed) && seed.domain == u.domain)
            ==> u in s.frontier.seen
  {
    RunInv(c, seeds, ss);
    var s := Last(ss);
    SeedDomainsExact(seeds, u.domain);
    if item in s.taken {
      assert Expanded(c, seeds, s, item);
      assert Edge(c, seeds, s, item.url, u) ==> item.depth < c.maxDepth ==> u in s.frontier.seen;
    }
    hide Run, Accounted, Workers, Explored, Expanded, SeedDomains;
  }

  lemma SeedDomainsExact(seeds: Seeds, domain: string)
    ensures domain in SeedDomains(seeds) <==> exists seed :: IsSeed(seeds, seed) && seed.domain == domain
  {
    if domain in SeedDomains(seeds) {
      var seed :| seed in seeds && seed.Some? && seed.value.domain == domain;
      assert IsSeed(seeds, seed.value);
    }
  }

  /** The counter is the number of pages whose result says that they were fetched. */
  lemma {:induction false} ProcessedIsFetched(c: Config, seeds: Seeds, ss: seq<State>)
    requires Run(c, seeds, ss)
    ensures var s := Last(ss); s.processed == |set u | u in s.results && s.results[u].fetched|
    decreases |ss|
  {
    if |ss| > 1 {
      var n := |ss| - 1;
      RunPrefix(c, seeds, ss);
      RunInv(c, seeds, ss[..n]);
      ProcessedIsFetched(c, seeds, ss[..n]);
      StepCounts(c, seeds, ss[n - 1], ss[n]);
      hide Run, Step, Inv;
    }
  }

  lemma StepCounts(c: Config, seeds: Seeds, s: State, s': State)
    requires Inv(c, seeds, s) && Step(c, seeds, s, s')
    requires s.processed == |set u | u in s.results && s.results[u].fetched|
    ensures s'.processed == |set u | u in s'.results && s'.results[u].fetched|
  {
    var w :| WorkerStep(c, seeds, s, s', w);
    if r :| Finish(c, seeds, s, s', w, r) {
      assert s.busy[w].url !in s.results;
      CountResult(s.results, s'.results, s.busy[w].url, r);
    }
    hide Inv, Handled, SeedDomains;
  }

  lemma CountResult(results: map<Url, Result>, results': map<Url, Result>, url: Url, r: Result)
    requires url !in results && results' == results[url := r]
    ensures |set u | u in results' && results'[u].fetched|
         == |set u | u in results && results[u].fetched| + if r.fetched then 1 else 0
  {
    var before := set u | u in results && results[u].fetched;
    var after := set u | u in results' && results'[u].fetched;
    assert after == if r.fetched then before + {url} else before;
  }

  // ---------------------------------------------------------------- termination

  /** Work left before the page bound, then work in the frontier: compared lexicographically. */
  ghost function PagesLeft(c: Config, s: State): int {
    PageBound(c) - s.processed
  }

  ghost function WorkLeft(s: State): nat {
    2 * |s.frontier.items| + |s.busy|
  }

  lemma WorkerStepDecreases(c: Config, seeds: Seeds, s: State, s': State, w: nat)
    requires WorkerStep(c, seeds, s, s', w)
    ensures PagesLeft(c, s') <= PagesLeft(c, s)
    ensures PagesLeft(c, s') == PagesLeft(c, s) ==> WorkLeft(s') < WorkLeft(s)
  {
  }

  lemma StepDecreases(c: Config, seeds: Seeds, s: State, s': State)
    requires Inv(c, seeds, s) && Step(c, seeds, s, s')
    ensures 0 <= PagesLeft(c, s') <= PagesLeft(c, s)
    ensures PagesLeft(c, s') == PagesLeft(c, s) ==> WorkLeft(s') < WorkLeft(s)
  {
    hide Accounted, Explored, WorkerStep;
    StepKeepsInv(c, seeds, s, s');
    var w :| WorkerStep(c, seeds, s, s', w);
    WorkerStepDecreases(c, seeds, s, s', w);
  }

  /** No interleaving goes on for ever, however many links the web has: every infinite sequence of
      states contains two neighbours that are not a step. */
  lemma {:induction false} NoInfiniteCrawl(c: Config, seeds: Seeds, run: nat -> State, i: nat) returns (j: nat)
    requires Inv(c, seeds, run(i))
    ensures j >= i && !Step(c, seeds, run(j), run(j + 1))
    decreases PagesLeft(c, run(i)), WorkLeft(run(i))
  {
    hide *;
    if Step(c, seeds, run(i), run(i + 1)) {
      StepKeepsInv(c, seeds, run(i), run(i + 1));
      StepDecreases(c, seeds, run(i), run(i + 1));
      j := NoInfiniteCrawl(c, seeds, run, i + 1);
    } else {
      j := i;
    }
  }

  lemma CrawlTerminates(c: Config, seeds: Seeds, run: nat -> State)
    requires run(0) == Init(seeds)
    ensures exists j: nat :: !Step(c, seeds, run(j), run(j + 1))
  {
    InitInv(c, seeds);
    var j := NoInfiniteCrawl(c, seeds, run, 0);
  }

  lemma CanStep(c: Config, seeds: Seeds, s: State)
    requires s.busy.Keys != {} || (s.frontier.items != [] && c.workers > 0)
    ensures exists s' :: Step(c, seeds, s, s')
  {
    if s.busy.Keys != {} {
      var w :| w in s.busy.Keys;
      var s' := s.(frontier := s.frontier.(unfinished := s.frontier.unfinished - 1), busy := s.busy - {w});
      assert WorkerStep(c, seeds, s, s', w);
      assert Step(c, seeds, s, s');
    } else {
      var item := s.frontier.items[0];
      var q := s.frontier.(items := s.frontier.items[1..]);
      var s' := if s.processed >= c.maxPages
        then s.(frontier := q.(unfinished := q.unfinished - 1), taken := s.taken + [item])
        else s.(frontier := q, taken := s.taken + [item], busy := s.busy[0 := item]);
      assert WorkerStep(c, seeds, s, s', 0);
      assert Step(c, seeds, s, s');
    }
  }

  /** A crawl is stuck exactly when `join` has returned; without workers it is stuck at once. */
  lemma StuckIffJoined(c: Config, seeds: Seeds, ss: seq<State>)
    requires Run(c, seeds, ss)
    ensures (exists s' :: Step(c, seeds, Last(ss), s')) <==> c.workers > 0 && Last(ss).frontier.unfinished > 0
  {
    hide Explored;
    var s := Last(ss);
    RunInv(c, seeds, ss);
    assert |s.busy| == |s.busy.Keys|;
    if s.busy.Keys != {} || (s.frontier.items != [] && c.workers > 0) {
      CanStep(c, seeds, s);
    }
  }

  // ---------------------------------------------------------------- paths

  /** A chain of links over finished pages from a seed to `v`; it has `|p| - 1` links. */
  ghost predicate IsPath(c: Config, seeds: Seeds, s: State, p: seq<Url>, v: Url) {
    && p != [] && IsSeed(seeds, p[0]) && p[|p| - 1] == v
    && forall i :: 0 <= i < |p| - 1 ==> Edge(c, seeds, s, p[i], p[i + 1])
  }

  /** With any number of workers an item's depth is the length of some path to it. */
  lemma {:induction false} DepthHasPath(c: Config, seeds: Seeds, s: State, item: Item) returns (p: seq<Url>)
    requires Inv(c, seeds, s) && item in History(s)
    ensures IsPath(c, seeds, s, p, item.url) && |p| - 1 == item.depth
    decreases item.depth
  {
    if item.depth == 0 {
      assert Found(c, seeds, s, item);
      p := [item.url];
    } else {
      var parent := ParentOf(c, seeds, s, item);
      hide Inv, Edge, History;
      var q := DepthHasPath(c, seeds, s, parent);
      p := q + [item.url];
      PathExtends(c, seeds, s, q, parent.url, item.url);
    }
  }

  lemma ParentOf(c: Config, seeds: Seeds, s: State, item: Item) returns (parent: Item)
    requires Inv(c, seeds, s) && item in History(s) && item.depth > 0
    ensures parent in History(s) && parent.depth + 1 == item.depth && Edge(c, seeds, s, parent.url, item.url)
  {
    assert Found(c, seeds, s, item);
    parent :| parent in s.taken && parent.depth + 1 == item.depth && Edge(c, seeds, s, parent.url, item.url);
  }

  lemma PathExtends(c: Config, seeds: Seeds, s: State, p: seq<Url>, u: Url, v: Url)
    requires IsPath(c, seeds, s, p, u) && Edge(c, seeds, s, u, v)
    ensures IsPath(c, seeds, s, p + [v], v)
  {
  }

  lemma SeenHasItem(s: State, u: Url) returns (item: Item)
    requires Accounted(s) && u in s.frontier.seen
    ensures item in History(s) && item.url == u
  {
    item :| item in History(s) && item.url == u;
  }

  ghost predicate ShortestDepths(c: Config, seeds: Seeds, s: State) {
    forall item, p :: item in History(s) && IsPath(c, seeds, s, p, item.url) ==> item.depth <= |p| - 1
  }

  // ---------------------------------------------------------------- one worker: breadth first

  ghost predicate NonDecreasing(items: seq<Item>) {
    forall i, j :: 0 <= i < j < |items| ==> items[i].depth <= items[j].depth
  }

  /** The deepest level the queue may hold: one below the item taken last. */
  function Horizon(s: State): nat {
    if s.taken == [] then 0 else s.taken[|s.taken| - 1].depth + 1
  }

  ghost predicate Ordered(c: Config, seeds: Seeds, s: State) {
    && NonDecreasing(History(s))
    && (forall item :: item in History(s) ==> item.depth <= Horizon(s))
    && (forall w :: w in s.busy ==> s.taken != [] && s.busy[w] == s.taken[|s.taken| - 1])
    && forall u, v :: u in s.taken && v in History(s) && u.depth < c.maxDepth && Edge(c, seeds, s, u.url, v.url) ==>
         v.depth <= u.depth + 1
  }

  lemma OrderedStep(c: Config, seeds: Seeds, s: State, s': State)
    requires c.workers <= 1 && Inv(c, seeds, s) && Ordered(c, seeds, s) && Step(c, seeds, s, s')
    ensures Ordered(c, seeds, s')
  {
    hide Accounted, Workers, Explored, Take, Finish, Ordered;
    var w :| WorkerStep(c, seeds, s, s', w);
    if Take(c, s, s', w) {
      OrderedTake(c, seeds, s, s', w);
    } else if Fail(s, s', w) {
      OrderedFail(c, seeds, s, s', w);
    } else {
      var r :| Finish(c, seeds, s, s', w, r);
      OrderedFinish(c, seeds, s, s', w, r);
    }
  }

  lemma OrderedFail(c: Config, seeds: Seeds, s: State, s': State, w: nat)
    requires Ordered(c, seeds, s) && Fail(s, s', w)
    ensures Ordered(c, seeds, s')
  {
    assert History(s') == History(s);
    assert forall u, v :: Edge(c, seeds, s', u, v) <==> Edge(c, seeds, s, u, v);
  }

  lemma NobodyElseBusy(c: Config, s: State, w: nat)
    requires c.workers <= 1 && Workers(c, s) && w < c.workers
    ensures w !in s.busy ==> s.busy == map[]
    ensures s.busy - {w} == map[]
  {
  }

  lemma OrderedTake(c: Config, seeds: Seeds, s: State, s': State, w: nat)
    requires c.workers <= 1 && Inv(c, seeds, s) && Ordered(c, seeds, s) && Take(c, s, s', w)
    ensures Ordered(c, seeds, s')
  {
    hide Accounted, Explored, Workers;
    TakeKeepsAccounts(c, s, s', w);
    NobodyElseBusy(c, s, w);
    var item := s.frontier.items[0];
    assert History(s)[|s.taken|] == item;
    if s.taken != [] {
      assert History(s)[|s.taken| - 1] == s.taken[|s.taken| - 1];
    }
    assert Horizon(s) <= Horizon(s');
    assert forall u, v :: Edge(c, seeds, s', u, v) <==> Edge(c, seeds, s, u, v);
    assert forall v :: !Edge(c, seeds, s', item.url, v);
  }

  lemma OrderedFinish(c: Config, seeds: Seeds, s: State, s': State, w: nat, r: Result)
    requires c.workers <= 1 && Inv(c, seeds, s) && Ordered(c, seeds, s) && Finish(c, seeds, s, s', w, r)
    ensures Ordered(c, seeds, s')
  {
    hide Found, NonDecreasing, Edge, Expanded, Handled, Admissible, Urls, Distinct;
    var item := s.busy[w];
    var news := HandledAppends(c, seeds, s, item, r);
    FinishKeepsAccounts(s, s', w, news);
    NobodyElseBusy(c, s, w);
    DeepestAppended(History(s), news, item.depth + 1);
    assert item.depth + 1 == Horizon(s) == Horizon(s');
    forall u, v | u in s'.taken && v in History(s') && u.depth < c.maxDepth && Edge(c, seeds, s', u.url, v.url)
      ensures v.depth <= u.depth + 1
    {
      OldEdgesShort(c, seeds, s, s', item, r, news, u, v);
    }
  }

  lemma DeepestAppended(items: seq<Item>, news: seq<Item>, depth: nat)
    requires NonDecreasing(items) && forall item :: item in items ==> item.depth <= depth
    requires forall item :: item in news ==> item.depth == depth
    ensures NonDecreasing(items + news) && forall item :: item in items + news ==> item.depth <= depth
  {
  }

  lemma OldEdgesShort(c: Config, seeds: Seeds, s: State, s': State, item: Item, r: Result, news: seq<Item>, u: Item,
                      v: Item)
    requires Accounted(s) && Explored(c, seeds, s) && Ordered(c, seeds, s)
    requires s'.results == s.results[item.url := r] && item in s.taken && item.depth + 1 == Horizon(s)
    requires Urls(news) !! s.frontier.seen && forall i :: i in news ==> i.depth == item.depth + 1
    requires u in s.taken && v in History(s) + news && u.depth < c.maxDepth && Edge(c, seeds, s', u.url, v.url)
    ensures v.depth <= u.depth + 1
  {
    if u.url == item.url {
      SameItem(s, u, item);
    } else {
      assert Edge(c, seeds, s, u.url, v.url) && Expanded(c, seeds, s, u);
      assert v in news ==> v.url in Urls(news);
    }
  }

  lemma {:induction false} RunOrdered(c: Config, seeds: Seeds, ss: seq<State>)
    requires Run(c, seeds, ss) && c.workers <= 1
    ensures Ordered(c, seeds, Last(ss))
    decreases |ss|
  {
    if |ss| == 1 {
      SeededItems(seeds);
      assert History(Init(seeds)) == Seeded(seeds).items;
    } else {
      var n := |ss| - 1;
      RunPrefix(c, seeds, ss);
      hide Run, Step, Ordered;
      RunInv(c, seeds, ss[..n]);
      RunOrdered(c, seeds, ss[..n]);
      hide Inv;
      OrderedStep(c, seeds, ss[n - 1], ss[n]);
    }
  }

  /** A path bounds the depth of the item it leads to, and short paths lead to seen URLs. */
  lemma {:induction false} PathBoundsDepth(c: Config, seeds: Seeds, s: State, p: seq<Url>, v: Url)
    requires Inv(c, seeds, s) && Ordered(c, seeds, s) && IsPath(c, seeds, s, p, v)
    ensures forall item :: item in History(s) && item.url == v ==> item.depth <= |p| - 1
    ensures |p| - 1 <= MaxDepth(c) ==> v in s.frontier.seen
    decreases |p|
  {
    hide Accounted, Workers, Found, Expanded, Ordered;
    if |p| == 1 {
      assert v in s.frontier.seen;
    } else {
      var n := |p| - 1;
      var u := p[n - 1];
      assert IsPath(c, seeds, s, p[..n], u) by {
        forall i | 0 <= i < n - 1
          ensures Edge(c, seeds, s, p[..n][i], p[..n][i + 1])
        {
          assert Edge(c, seeds, s, p[i], p[i + 1]);
        }
      }
      PathBoundsDepth(c, seeds, s, p[..n], u);
      assert Edge(c, seeds, s, p[n - 1], p[n - 1 + 1]);
      LastLinkBoundsDepth(c, seeds, s, u, v, n - 1);
    }
  }

  lemma LastLinkBoundsDepth(c: Config, seeds: Seeds, s: State, u: Url, v: Url, n: nat)
    requires Inv(c, seeds, s) && Ordered(c, seeds, s) && Edge(c, seeds, s, u, v)
    requires forall item :: item in History(s) && item.url == u ==> item.depth <= n
    ensures forall item :: item in History(s) && item.url == v ==> item.depth <= n + 1
    ensures n + 1 <= MaxDepth(c) ==> v in s.frontier.seen
  {
    hide Found, NonDecreasing;
    assert u in Urls(s.taken);
    var page :| page in s.taken && page.url == u;
    assert page in History(s) && Expanded(c, seeds, s, page);
  }

  /** One worker, any page budget, any pages: the crawl is breadth-first search over the pages that
      were fetched. Items leave the queue by depth, depths are shortest distances, and the URLs seen
      are exactly those within the depth limit. (A dropped or failed page has no links.) */
  lemma BreadthFirst(c: Config, seeds: Seeds, ss: seq<State>)
    requires Run(c, seeds, ss) && c.workers <= 1
    ensures var s := Last(ss);
            && NonDecreasing(s.taken) && ShortestDepths(c, seeds, s)
            && (forall item :: item in History(s) ==>
                exists p :: IsPath(c, seeds, s, p, item.url) && |p| - 1 == item.depth)
            && forall v :: v in s.frontier.seen <==> exists p :: IsPath(c, seeds, s, p, v) && |p| - 1 <= MaxDepth(c)
  {
    var s := Last(ss);
    RunInv(c, seeds, ss);
    RunOrdered(c, seeds, ss);
    forall i, j | 0 <= i < j < |s.taken|
      ensures s.taken[i].depth <= s.taken[j].depth
    {
      assert s.taken[i] == History(s)[i] && s.taken[j] == History(s)[j];
    }
    forall item | item in History(s)
      ensures exists p :: IsPath(c, seeds, s, p, item.url) && |p| - 1 == item.depth
    {
      var p := DepthHasPath(c, seeds, s, item);
    }
    forall v, p | IsPath(c, seeds, s, p, v)
      ensures forall item :: item in History(s) && item.url == v ==> item.depth <= |p| - 1
      ensures |p| - 1 <= MaxDepth(c) ==> v in s.frontier.seen
    {
      PathBoundsDepth(c, seeds, s, p, v);
    }
    forall v | v in s.frontier.seen
      ensures exists p :: IsPath(c, seeds, s, p, v) && |p| - 1 <= MaxDepth(c)
    {
      var item := SeenHasItem(s, v);
      var p := DepthHasPath(c, seeds, s, item);
    }
  }
}
