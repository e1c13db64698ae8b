/** Where the engine's documentation promises more than the code keeps, and exactly when it does keep it. */
module EngineLimits {
  import opened Frontier
  import opened Engine
  import opened EngineSafety
  import opened EngineTheorems
  import opened Wrappers

  lemma Extend(c: Config, seeds: Seeds, ss: seq<State>, s': State)
    requires Run(c, seeds, ss) && Step(c, seeds, Last(ss), s')
    ensures Run(c, seeds, ss + [s']) && Last(ss + [s']) == s'
  {
  }

  /** One `Take` of a page while the budget lasts. */
  lemma TakeOne(c: Config, seeds: Seeds, ss: seq<State>, w: nat) returns (ss': seq<State>)
    requires Run(c, seeds, ss)
    requires var s := Last(ss); w < c.workers && w !in s.busy && s.frontier.items != [] && s.processed < c.maxPages
    ensures Run(c, seeds, ss')
    ensures var s := Last(ss);
            Last(ss') == s.(frontier := s.frontier.(items := s.frontier.items[1..]),
                            taken := s.taken + [s.frontier.items[0]], busy := s.busy[w := s.frontier.items[0]])
  {
    var s := Last(ss);
    var s' := s.(frontier := s.frontier.(items := s.frontier.items[1..]),
                 taken := s.taken + [s.frontier.items[0]], busy := s.busy[w := s.frontier.items[0]]);
    assert Take(c, s, s', w) && WorkerStep(c, seeds, s, s', w);
    Extend(c, seeds, ss, s');
    ss' := ss + [s'];
  }

  lemma FinishOne(c: Config, seeds: Seeds, ss: seq<State>, w: nat, r: Result) returns (ss': seq<State>)
    requires Run(c, seeds, ss) && w in Last(ss).busy && r.fetched && !r.duplicate
    ensures Run(c, seeds, ss')
    ensures var s := Last(ss);
            var q := Handled(c, SeedDomains(seeds), s.frontier, s.busy[w], r);
            Last(ss') == State(q.(unfinished := q.unfinished - 1), s.busy - {w}, s.processed + 1,
                               s.taken, s.results[s.busy[w].url := r])
  {
    var s := Last(ss);
    var q := Handled(c, SeedDomains(seeds), s.frontier, s.busy[w], r);
    var s' := State(q.(unfinished := q.unfinished - 1), s.busy - {w}, s.processed + 1,
                    s.taken, s.results[s.busy[w].url := r]);
    assert Finish(c, seeds, s, s', w, r) && WorkerStep(c, seeds, s, s', w);
    Extend(c, seeds, ss, s');
    ss' := ss + [s'];
  }

  // ---------------------------------------------------------------- the page budget

  /** `n` different seeds. */
  function Name(n: nat): Url {
    Url("d", seq(n, _ => 'a'))
  }

  function ManySeeds(n: nat): Seeds {
    seq(n, i requires 0 <= i => Some(Name(i)))
  }

  lemma {:induction false} ManySeedsQueued(n: nat)
    ensures Seeded(ManySeeds(n)).items == seq(n, i requires 0 <= i => Item(Name(i), 0))
    ensures forall i: nat :: i < n <==> Name(i) in Seeded(ManySeeds(n)).seen
  {
    if n > 0 {
      ManySeedsQueued(n - 1);
      assert ManySeeds(n)[..n - 1] == ManySeeds(n - 1);
      forall i: nat | Name(i) == Name(n - 1)
        ensures i == n - 1
      {
        assert |Name(i).text| == i && |Name(n - 1).text| == n - 1;
      }
    }
  }

  const NO_LINKS := Result(true, false, [])

  /** A lone worker fetches `k` linkless seeds, one after the other. */
  lemma {:induction false} FetchInTurn(c: Config, seeds: Seeds, k: nat) returns (ss: seq<State>)
    requires c.workers >= 1 && k <= c.maxPages && k <= |Seeded(seeds).items|
    ensures Run(c, seeds, ss)
    ensures var s := Last(ss);
            s.processed == k && s.busy == map[] && s.frontier.items == Seeded(seeds).items[k..]
  {
    if k == 0 {
      ss := [Init(seeds)];
    } else {
      ss := FetchInTurn(c, seeds, k - 1);
      ss := TakeOne(c, seeds, ss, 0);
      ss := FinishOne(c, seeds, ss, 0, NO_LINKS);
    }
  }

  /** Workers `0..n` each take a page before any of them finishes. */
  lemma {:induction false} TakeTogether(c: Config, seeds: Seeds, k: nat, n: nat) returns (ss: seq<State>)
    requires n <= c.workers && c.workers >= 1 && k < c.maxPages && k + n <= |Seeded(seeds).items|
    ensures Run(c, seeds, ss)
    ensures var s := Last(ss);
            && s.processed == k && s.frontier.items == Seeded(seeds).items[k + n..]
            && forall w: nat :: w in s.busy <==> w < n
    decreases n
  {
    if n == 0 {
      ss := FetchInTurn(c, seeds, k);
    } else {
      ss := TakeTogether(c, seeds, k, n - 1);
      ss := TakeOne(c, seeds, ss, n - 1);
    }
  }

  lemma {:induction false} FinishTogether(c: Config, seeds: Seeds, ss: seq<State>, n: nat) returns (ss': seq<State>)
    requires Run(c, seeds, ss) && forall w: nat :: w in Last(ss).busy <==> w < n
    ensures Run(c, seeds, ss') && Last(ss').processed == Last(ss).processed + n
    decreases n
  {
    if n == 0 {
      ss' := ss;
    } else {
      ss' := FinishOne(c, seeds, ss, n - 1, NO_LINKS);
      ss' := FinishTogether(c, seeds, ss', n - 1);
    }
  }

  /** The bound of `Workers` is met: some crawl fetches `maxPages + workers - 1` pages. */
  lemma PageBoundIsTight(c: Config)
    ensures exists seeds, ss :: Run(c, seeds, ss) && Last(ss).processed == PageBound(c)
  {
    if c.maxPages <= 0 || c.workers == 0 {
      assert Run(c, [], [Init([])]) && Last([Init([])]).processed == 0;
    } else {
      var n := c.maxPages + c.workers;
      ManySeedsQueued(n);
      var ss := TakeTogether(c, ManySeeds(n), c.maxPages - 1, c.workers);
      ss := FinishTogether(c, ManySeeds(n), ss, c.workers);
    }
  }

  ghost predicate CapIsStrict(c: Config) {
    forall seeds, ss :: Run(c, seeds, ss) ==> Last(ss).processed <= (if c.maxPages < 0 then 0 else c.maxPages)
  }

  /** `max_pages` is a cap only for a crawl that a second worker cannot overtake. */
  lemma CapIsStrictIff(c: Config)
    ensures CapIsStrict(c) <==> c.workers <= 1 || c.maxPages <= 0
  {
    if c.workers <= 1 || c.maxPages <= 0 {
      forall seeds, ss | Run(c, seeds, ss)
        ensures Last(ss).processed <= (if c.maxPages < 0 then 0 else c.maxPages)
      {
        RunInv(c, seeds, ss);
      }
    } else {
      PageBoundIsTight(c);
    }
  }

  // ---------------------------------------------------------------- depths with several workers

  /** A small budget of depth or pages keeps every item within one link of a seed. */
  ghost predicate Shallow(c: Config, s: State) {
    && (forall item :: item in History(s) ==> item.depth <= 1)
    && (c.maxDepth > 1 ==> (forall w :: w in s.busy ==> s.busy[w].depth == 0)
                           && (s.processed == 0 ==> forall item :: item in History(s) ==> item.depth == 0))
  }

  lemma ShallowFinish(c: Config, seeds: Seeds, s: State, s': State, w: nat, r: Result)
    requires c.maxDepth <= 1 || c.maxPages <= 1
    requires Workers(c, s) && Shallow(c, s) && Finish(c, seeds, s, s', w, r)
    ensures Shallow(c, s')
  {
    var news := HandledAppends(c, seeds, s, s.busy[w], r);
    assert History(s') == History(s) + news;
    assert s.busy[w] in History(s);
  }

  lemma ShallowStep(c: Config, seeds: Seeds, s: State, s': State)
    requires c.maxDepth <= 1 || c.maxPages <= 1
    requires Inv(c, seeds, s) && Shallow(c, s) && Step(c, seeds, s, s')
    ensures Shallow(c, s')
  {
    hide Explored, Accounted, Finish;
    var w :| WorkerStep(c, seeds, s, s', w);
    if Take(c, s, s', w) {
      assert History(s') == History(s);
      assert History(s)[|s.taken|] == s.frontier.items[0];
    } else if Fail(s, s', w) {
      assert History(s') == History(s);
    } else {
      var r :| Finish(c, seeds, s, s', w, r);
      ShallowFinish(c, seeds, s, s', w, r);
    }
  }

  lemma {:induction false} RunShallow(c: Config, seeds: Seeds, ss: seq<State>)
    requires c.maxDepth <= 1 || c.maxPages <= 1
    requires Run(c, seeds, ss)
    ensures Shallow(c, Last(ss))
    decreases |ss|
  {
    if |ss| == 1 {
      SeededItems(seeds);
      assert History(Init(seeds)) == Seeded(seeds).items;
    } else {
      var n := |ss| - 1;
      RunPrefix(c, seeds, ss);
      hide Run, Step, Shallow;
      RunInv(c, seeds, ss[..n]);
      RunShallow(c, seeds, ss[..n]);
      hide Inv;
      ShallowStep(c, seeds, ss[n - 1], ss[n]);
    }
  }

  lemma ShallowIsShortest(c: Config, seeds: Seeds, s: State)
    requires Inv(c, seeds, s) && Shallow(c, s)
    ensures ShortestDepths(c, seeds, s)
  {
  }

  lemma SeededOne(seeds: Seeds, u: Url)
    ensures Seeded(seeds + [Some(u)]) == Put(Seeded(seeds), Item(u, 0))
  {
  }

  lemma ExpandOne(c: Config, domains: set<string>, q: Queue, depth: nat, u: Url)
    requires Admissible(c, domains, u)
    ensures Expand(c, domains, q, depth, [u]) == Put(q, Item(u, depth))
  {
  }

  /** Two seeds s and t: s leads to a and a to b while t, which links to b directly, is still in flight. */
  lemma SlowSeed(workers: nat, maxDepth: int, maxPages: int) returns (c: Config, seeds: Seeds, ss: seq<State>)
    requires workers >= 2 && maxDepth >= 2 && maxPages >= 2
    ensures c.workers == workers && c.maxDepth == maxDepth && c.maxPages == maxPages
    ensures Run(c, seeds, ss) && !ShortestDepths(c, seeds, Last(ss))
  {
    c := Config(maxDepth, maxPages, workers, 1, None, false);
    var s, t, a, b := Url("d", "s"), Url("d", "t"), Url("d", "a"), Url("d", "b");
    assert s.text[0] != t.text[0] && s.text[0] != a.text[0] && s.text[0] != b.text[0];
    assert t.text[0] != a.text[0] && t.text[0] != b.text[0] && a.text[0] != b.text[0];
    seeds := [Some(s), Some(t)];
    SeededOne([], s);
    SeededOne([] + [Some(s)], t);
    assert seeds == ([] + [Some(s)]) + [Some(t)];
    var domains := SeedDomains(seeds);
    ss := [Init(seeds)];
    ss := TakeOne(c, seeds, ss, 0);
    ss := TakeOne(c, seeds, ss, 1);
    ExpandOne(c, domains, Last(ss).frontier, 1, a);
    ss := FinishOne(c, seeds, ss, 0, Result(true, false, [a]));
    assert Last(ss).frontier.items == [Item(a, 1)];
    ss := TakeOne(c, seeds, ss, 0);
    ExpandOne(c, domains, Last(ss).frontier, 2, b);
    ss := FinishOne(c, seeds, ss, 0, Result(true, false, [b]));
    assert Last(ss).frontier.items == [Item(b, 2)];
    ExpandOne(c, domains, Last(ss).frontier, 1, b);
    ss := FinishOne(c, seeds, ss, 1, Result(true, false, [b]));
    assert IsPath(c, seeds, Last(ss), [t, b], b);
    assert Item(b, 2) in History(Last(ss));
  }

  ghost predicate AlwaysShortest(workers: nat, maxDepth: int, maxPages: int) {
    forall c: Config, seeds, ss ::
      c.workers == workers && c.maxDepth == maxDepth && c.maxPages == maxPages && Run(c, seeds, ss) ==>
      ShortestDepths(c, seeds, Last(ss))
  }

  /** Every crawl gives every page its shortest depth exactly when there is one worker, or the depth
      or page budget leaves no room for a detour. */
  lemma AlwaysShortestIff(workers: nat, maxDepth: int, maxPages: int)
    ensures AlwaysShortest(workers, maxDepth, maxPages) <==> workers <= 1 || maxDepth <= 1 || maxPages <= 1
  {
    if workers <= 1 || maxDepth <= 1 || maxPages <= 1 {
      forall c: Config, seeds, ss |
        c.workers == workers && c.maxDepth == maxDepth && c.maxPages == maxPages && Run(c, seeds, ss)
        ensures ShortestDepths(c, seeds, Last(ss))
      {
        RunInv(c, seeds, ss);
        if workers <= 1 {
          BreadthFirst(c, seeds, ss);
        } else {
          RunShallow(c, seeds, ss);
          ShallowIsShortest(c, seeds, Last(ss));
        }
      }
    } else {
      var c, seeds, ss := SlowSeed(workers, maxDepth, maxPages);
    }
  }
}
