/** The single-node crawl engine (crawler/pipeline/engine.py) as interleaved steps of its workers. */
module Engine {
  import opened Frontier
  import opened Wrappers

  datatype Config = Config(
    maxDepth: int, maxPages: int, workers: nat,
    maxUrlLength: int, allowedDomains: Option<set<string>>, sameDomainOnly: bool)

  /** What the pipeline reports for one item. Only a fetched page that is no duplicate has links. */
  datatype Result = Result(fetched: bool, duplicate: bool, links: seq<Url>)

  predicate Reported(r: Result) {
    r.links != [] ==> r.fetched && !r.duplicate
  }

  // ---------------------------------------------------------------- seeds, filters, expansion

  /** Seeds as `normalize_url` returns them: `None` is an invalid seed and is skipped. */
  type Seeds = seq<Option<Url>>

  ghost predicate IsSeed(seeds: Seeds, u: Url) {
    Some(u) in seeds
  }

  function SeedDomains(seeds: Seeds): set<string> {
    set s | s in seeds && s.Some? :: s.value.domain
  }

  function Seeded(seeds: Seeds): Queue {
    if seeds == [] then EMPTY
    else
      var q := Seeded(seeds[..|seeds| - 1]);
      match seeds[|seeds| - 1]
      case None => q
      case Some(u) => Put(q, Item(u, 0))
  }

  predicate Admissible(c: Config, domains: set<string>, u: Url) {
    && |u.text| <= c.maxUrlLength
    && match c.allowedDomains
       case Some(ds) => u.domain in ds
       case None => c.sameDomainOnly ==> u.domain in domains
  }

  function Expand(c: Config, domains: set<string>, q: Queue, depth: nat, links: seq<Url>): Queue {
    if links == [] then q
    else
      var before := Expand(c, domains, q, depth, links[..|links| - 1]);
      var u := links[|links| - 1];
      if Admissible(c, domains, u) then Put(before, Item(u, depth)) else before
  }

  /** The part of `_handle` that follows `pipeline.process`: it never suspends. */
  function Handled(c: Config, domains: set<string>, q: Queue, item: Item, r: Result): Queue {
    if r.duplicate || item.depth >= c.maxDepth then q
    else Expand(c, domains, q, item.depth + 1, r.links)
  }

  lemma {:induction false} ExpandCounts(c: Config, domains: set<string>, q: Queue, depth: nat, links: seq<Url>)
    ensures Expand(c, domains, q, depth, links).unfinished >= q.unfinished
  {
    if links != [] {
      ExpandCounts(c, domains, q, depth, links[..|links| - 1]);
    }
  }

  class CrawlEngine {
    const config: Config
    const frontier: MemoryFrontier
    var processed: nat
    var seedDomains: set<string>
    /** The local variable `item` of each worker that is suspended in the pipeline. */
    var busy: map<nat, Item>
    ghost var seeds: Seeds
    /** History, as in `State`. */
    ghost var taken: seq<Item>
    ghost var results: map<Url, Result>

    ghost function View(): State
      reads this, frontier
    {
      State(frontier.View(), busy, processed, taken, results)
    }

    constructor (config: Config, frontier: MemoryFrontier)
      ensures this.config == config && this.frontier == frontier
      ensures processed == 0 && seedDomains == {} && busy == map[] && taken == [] && results == map[]
    {
      this.config, this.frontier := config, frontier;
      processed, seedDomains := 0, {};
      busy, taken, results := map[], [], map[];
    }

    /** The seed loop at the start of `run`. */
    method Seed(seeds: Seeds)
      requires frontier.View() == EMPTY && seedDomains == {}
      requires processed == 0 && busy == map[] && taken == [] && results == map[]
      modifies this, frontier
      ensures View() == Init(seeds)
      ensures this.seeds == seeds && seedDomains == SeedDomains(seeds)
    {
      this.seeds := seeds;
      for k := 0 to |seeds|
        invariant frontier.View() == Seeded(seeds[..k])
        invariant seedDomains == SeedDomains(seeds[..k]) && this.seeds == seeds
        invariant processed == 0 && busy == map[] && taken == [] && results == map[]
      {
        assert seeds[..k + 1][..k] == seeds[..k];
        assert forall s :: s in seeds[..k + 1] <==> s in seeds[..k] || s == seeds[k];
        if seeds[k].Some? {
          seedDomains := seedDomains + {seeds[k].value.domain};
          var _ := frontier.Add(Item(seeds[k].value, 0));
        }
      }
      assert seeds[..|seeds|] == seeds;
    }

    /** A turn of `_worker` up to its suspension in the pipeline, or all of it over the page budget. */
    method Next(w: nat) returns (item: Option<Item>)
      requires w < config.workers && w !in busy && frontier.items != [] && frontier.unfinished > 0
      modifies this, frontier
      ensures Take(config, old(View()), View(), w)
      ensures w in busy <==> item.Some?
      ensures seeds == old(seeds) && seedDomains == old(seedDomains)
    {
      var i := frontier.Get();
      taken := taken + [i];
      if processed >= config.maxPages {
        frontier.TaskDone();
        return None;
      }
      busy := busy[w := i];
      return Some(i);
    }

    /** The rest of that turn once the pipeline has answered. */
    method Complete(w: nat, result: Result)
      requires w in busy && Reported(result) && seedDomains == SeedDomains(seeds) && frontier.unfinished > 0
      modifies this, frontier
      ensures Finish(config, seeds, old(View()), View(), w, result)
      ensures seeds == old(seeds) && seedDomains == old(seedDomains)
    {
      var item := busy[w];
      ExpandCounts(config, seedDomains, frontier.View(), item.depth + 1, result.links);
      Handle(item, result);
      busy, results := busy - {w}, results[item.url := result];
      frontier.TaskDone();
    }

    /** The rest of that turn when the pipeline has raised. */
    method Abort(w: nat)
      requires w in busy && frontier.unfinished > 0
      modifies this, frontier
      ensures Fail(old(View()), View(), w)
      ensures seeds == old(seeds) && seedDomains == old(seedDomains)
    {
      busy := busy - {w};
      frontier.TaskDone();
    }

    /** `_handle` from the moment the pipeline has answered. */
    method Handle(item: Item, result: Result)
      modifies this`processed, frontier
      ensures processed == old(processed) + (if result.fetched then 1 else 0)
      ensures frontier.View() == Handled(config, old(seedDomains), old(frontier.View()), item, result)
    {
      if result.fetched {
        processed := processed + 1;
      }
      if result.duplicate || item.depth >= config.maxDepth {
        return;
      }
      for k := 0 to |result.links|
        invariant processed == old(processed) + (if result.fetched then 1 else 0)
        invariant frontier.View()
               == Expand(config, seedDomains, old(frontier.View()), item.depth + 1, result.links[..k])
      {
        assert result.links[..k + 1][..k] == result.links[..k];
        var child := result.links[k];
        if |child.text| > config.maxUrlLength {
          continue;
        }
        if config.allowedDomains.Some? {
          if child.domain !in config.allowedDomains.value {
            continue;
          }
        } else if config.sameDomainOnly && child.domain !in seedDomains {
          continue;
        }
        var _ := frontier.Add(Item(child, item.depth + 1));
      }
      assert result.links[..|result.links|] == result.links;
    }
  }

  // ---------------------------------------------------------------- the interleaved crawl

  /** `busy` maps a worker suspended in `pipeline.process` to its item. `taken` (items in the order
      they left the queue) and `results` (what the pipeline reported) are history. */
  datatype State = State(
    frontier: Queue, busy: map<nat, Item>, processed: nat,
    taken: seq<Item>, results: map<Url, Result>)

  function Init(seeds: Seeds): State {
    State(Seeded(seeds), map[], 0, [], map[])
  }

  /** A worker resumes from `frontier.get()`, looks at the page budget, and either drops the item
      or suspends in the pipeline with it. */
  ghost predicate Take(c: Config, s: State, s': State, w: nat) {
    && w < c.workers && w !in s.busy && s.frontier.items != []
    && var item := s.frontier.items[0];
       var q := s.frontier.(items := s.frontier.items[1..]);
       if s.processed >= c.maxPages then
         s' == s.(frontier := q.(unfinished := q.unfinished - 1), taken := s.taken + [item])
       else
         s' == s.(frontier := q, taken := s.taken + [item], busy := s.busy[w := item])
  }

  ghost predicate Finish(c: Config, seeds: Seeds, s: State, s': State, w: nat, r: Result) {
    && w in s.busy && Reported(r)
    && var item := s.busy[w];
       var q := Handled(c, SeedDomains(seeds), s.frontier, item, r);
       s' == State(q.(unfinished := q.unfinished - 1), s.busy - {w},
                      s.processed + (if r.fetched then 1 else 0), s.taken, s.results[item.url := r])
  }

  /** The pipeline raised: the worker logs the error and marks the item done. */
  ghost predicate Fail(s: State, s': State, w: nat) {
    && w in s.busy
    && s' == s.(frontier := s.frontier.(unfinished := s.frontier.unfinished - 1), busy := s.busy - {w})
  }

  ghost predicate WorkerStep(c: Config, seeds: Seeds, s: State, s': State, w: nat) {
    Take(c, s, s', w) || Fail(s, s', w) || exists r :: Finish(c, seeds, s, s', w, r)
  }

  ghost predicate Step(c: Config, seeds: Seeds, s: State, s': State) {
    exists w :: WorkerStep(c, seeds, s, s', w)
  }

  ghost predicate Run(c: Config, seeds: Seeds, ss: seq<State>) {
    && ss != [] && ss[0] == Init(seeds)
    && forall i :: 0 <= i < |ss| - 1 ==> Step(c, seeds, ss[i], ss[i + 1])
  }

  function Last(ss: seq<State>): State
    requires ss != []
  {
    ss[|ss| - 1]
  }

  /** Every item that ever entered the frontier, in the order it did. */
  function History(s: State): seq<Item> {
    s.taken + s.frontier.items
  }
}
