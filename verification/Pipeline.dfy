/** One URL through the pipeline (crawler/pipeline/pipeline.py): robots, breaker, budget, fetch, outcome, dedup. */
module Pipeline {
  import opened Frontier
  import opened Wrappers
  import CircuitBreaker
  import Budget
  import Engine

  datatype Skip = Robots | CircuitOpen | BudgetExhausted | FetchError | NotModified

  /** `fetch` as the pipeline sees it; `error` is a transport error, which comes without links. */
  datatype Fetch = Fetch(error: bool, status: int, html: bool, body: bool, links: seq<Url>)

  /** Where an exception leaves `process`, if anywhere: while the stored validators are looked up, in the
      gates or the fetch, or while the page is parsed, deduplicated and stored. */
  datatype Failure = NoFailure | AtHeaders | AtFetch | AtStore

  /** What the world answers during one call: robots permission, the clock at the breaker's two readings,
      whether Redis is up for the budget, the fetch, the verdict of the content index on the fingerprint,
      and where something raises. */
  datatype World = World(
    robotsAllow: bool, askedAt: real, fetchedAt: real, redisUp: bool,
    fetch: Fetch, nearDuplicate: bool, failure: Failure)

  datatype Processed = Processed(result: Engine.Result, stored: bool, skipped: Option<Skip>)

  datatype Reply = Raised | Answer(page: Processed)

  /** Either of the two backends. */
  datatype DomainBudget = Local(local: Budget.InMemoryDomainBudget) | Shared(shared: Budget.RedisDomainBudget)

  const NOTHING := Engine.Result(false, false, [])

  function Refused(skip: Skip): Reply {
    Answer(Processed(NOTHING, false, Some(skip)))
  }

  predicate HostFailed(f: Fetch) {
    f.error || f.status >= 500 || f.status == 0
  }

  function OutcomeOf(f: Fetch): CircuitBreaker.Outcome {
    if HostFailed(f) then CircuitBreaker.Failed else CircuitBreaker.Succeeded
  }

  /** The answer once the fetch has come back. */
  function AfterFetch(f: Fetch, dedup: bool, nearDuplicate: bool): (r: Processed)
    ensures r.result.fetched <==> !f.error
    ensures r.skipped == if f.error then Some(FetchError) else if f.status == 304 then Some(NotModified) else None
    ensures r.stored <==> r.skipped.None?
    ensures r.result.duplicate <==> r.stored && f.html && f.body && dedup && nearDuplicate
    ensures r.result.links == if r.stored && f.html && f.body && !r.result.duplicate then f.links else []
  {
    if f.error then Processed(NOTHING, false, Some(FetchError))
    else if f.status == 304 then Processed(Engine.Result(true, false, []), false, Some(NotModified))
    else if f.html && f.body then
      var duplicate := dedup && nearDuplicate;
      Processed(Engine.Result(true, duplicate, if duplicate then [] else f.links), true, None)
    else Processed(Engine.Result(true, false, []), true, None)
  }

  datatype Funds = Funds(log: seq<Budget.Charge>, counters: map<string, int>)

  datatype Circuit = Circuit(history: CircuitBreaker.History, hosts: map<string, CircuitBreaker.HostState>)

  /** What recording the outcome of a fetch leaves. */
  function Recorded(c: Circuit, host: string, f: Fetch, now: real, threshold: nat): Circuit {
    var st := CircuitBreaker.Lookup(c.hosts, host);
    Circuit(c.history + [(host, OutcomeOf(f))],
            c.hosts[host := CircuitBreaker.AfterOutcome(st, OutcomeOf(f), now, threshold)])
  }

  /** How often a domain occurs. */
  function Count(domains: seq<string>, domain: string): nat {
    if domains == [] then 0
    else Count(domains[..|domains| - 1], domain) + if domains[|domains| - 1] == domain then 1 else 0
  }

  lemma {:induction false} CountIs(domains: seq<string>, domain: string)
    ensures Count(domains, domain) == multiset(domains)[domain]
  {
    if domains != [] {
      CountIs(domains[..|domains| - 1], domain);
      assert domains == domains[..|domains| - 1] + [domains[|domains| - 1]];
    }
  }

  lemma OneMore(domains: seq<string>, domain: string, d: string)
    ensures Count(domains + [domain], d) == Count(domains, d) + if domain == d then 1 else 0
  {
    assert (domains + [domain])[..|domains|] == domains;
  }

  /** Every fetch that was started or is about to be was paid for from the budget, or let through because
      Redis could not be reached. */
  ghost predicate Paid(fetches: seq<string>, pending: multiset<string>, unpaid: seq<string>, log: seq<Budget.Charge>) {
    forall d :: Count(fetches, d) + pending[d] <= Budget.AllowedCost(log, d) + Count(unpaid, d)
  }

  /** A pipeline may join a budget that others already use. */
  lemma NothingFetched(log: seq<Budget.Charge>)
    ensures Budget.NoRefunds(log) ==> Paid([], multiset{}, [], log)
  {
    if Budget.NoRefunds(log) {
      forall d
        ensures Count([], d) + multiset{}[d] <= Budget.AllowedCost(log, d) + Count([], d)
      {
        Budget.AllowedNonNegative(log, d);
      }
    }
  }

  lemma PaidOnCharge(fetches: seq<string>, pending: multiset<string>, unpaid: seq<string>, log: seq<Budget.Charge>,
                     domain: string, ok: bool)
    requires Paid(fetches, pending, unpaid, log)
    ensures Paid(fetches, if ok then pending + multiset{domain} else pending, unpaid,
                 log + [Budget.Charge(domain, 1, ok)])
    ensures Paid(fetches, pending + multiset{domain}, unpaid + [domain], log)
  {
    var charged := log + [Budget.Charge(domain, 1, ok)];
    var pending' := if ok then pending + multiset{domain} else pending;
    hide Count, Budget.AllowedCost;
    forall d
      ensures Count(fetches, d) + pending'[d] <= Budget.AllowedCost(charged, d) + Count(unpaid, d)
      ensures Count(fetches, d) + (pending + multiset{domain})[d]
           <= Budget.AllowedCost(log, d) + Count(unpaid + [domain], d)
    {
      assert Count(fetches, d) + pending[d] <= Budget.AllowedCost(log, d) + Count(unpaid, d);
      Budget.Charged(log, Budget.Charge(domain, 1, ok), d);
      OneMore(unpaid, domain, d);
    }
  }

  /** Other workers may charge the shared budget in between. */
  lemma PaidWhenOthersCharge(fetches: seq<string>, pending: multiset<string>, unpaid: seq<string>,
                             log: seq<Budget.Charge>, c: Budget.Charge)
    requires Paid(fetches, pending, unpaid, log) && c.cost >= 0
    ensures Paid(fetches, pending, unpaid, log + [c])
  {
    hide Count, Budget.AllowedCost;
    forall d
      ensures Count(fetches, d) + pending[d] <= Budget.AllowedCost(log + [c], d) + Count(unpaid, d)
    {
      assert Count(fetches, d) + pending[d] <= Budget.AllowedCost(log, d) + Count(unpaid, d);
      Budget.Charged(log, c, d);
    }
  }

  lemma PaidOnStart(fetches: seq<string>, pending: multiset<string>, unpaid: seq<string>, log: seq<Budget.Charge>,
                    domain: string)
    requires Paid(fetches, pending, unpaid, log) && domain in pending
    ensures Paid(fetches + [domain], pending - multiset{domain}, unpaid, log)
    ensures Paid(fetches, pending - multiset{domain}, unpaid, log)
  {
    hide Count, Budget.AllowedCost;
    forall d
      ensures Count(fetches + [domain], d) + (pending - multiset{domain})[d] == Count(fetches, d) + pending[d]
      ensures Count(fetches, d) + (pending - multiset{domain})[d] <= Count(fetches, d) + pending[d]
      ensures Count(fetches, d) + pending[d] <= Budget.AllowedCost(log, d) + Count(unpaid, d)
    {
      OneMore(fetches, domain, d);
    }
  }

  class PagePipeline {
    const breaker: Option<CircuitBreaker.Breaker>
    const budget: Option<DomainBudget>
    const dedup: bool
    /** The domains of all fetches ever started, and of those let through while Redis was down. */
    ghost var fetches: seq<string>
    ghost var unpaid: seq<string>
    /** The domains of the calls that were admitted and have not started their fetch yet. */
    ghost var pending: multiset<string>

    constructor (breaker: Option<CircuitBreaker.Breaker>, budget: Option<DomainBudget>, dedup: bool)
      requires breaker.Some? ==> breaker.value.Valid()
      requires budget.Some? && budget.value.Local? ==>
                 budget.value.local.Valid() && Budget.NoRefunds(budget.value.local.log)
      requires budget.Some? && budget.value.Shared? ==>
                 budget.value.shared.Valid() && Budget.NoRefunds(budget.value.shared.log)
      ensures this.breaker == breaker && this.budget == budget && this.dedup == dedup
      ensures Valid() && fetches == [] && unpaid == [] && pending == multiset{}
    {
      this.breaker, this.budget, this.dedup := breaker, budget, dedup;
      fetches, unpaid, pending := [], [], multiset{};
      if budget.Some? {
        NothingFetched(if budget.value.Local? then budget.value.local.log else budget.value.shared.log);
      }
    }

    ghost function BudgetParts(): set<object> {
      match budget
      case None => {}
      case Some(Local(local)) => {local}
      case Some(Shared(shared)) => {shared}
    }

    ghost function BreakerParts(): set<object> {
      if breaker.Some? then {breaker.value} else {}
    }

    /** The charges and counters of the budget; nothing without a budget. */
    ghost function FundsNow(): Funds
      reads BudgetParts()
    {
      match budget
      case None => Funds([], map[])
      case Some(Local(local)) => Funds(local.log, local.used)
      case Some(Shared(shared)) => Funds(shared.log, shared.counters)
    }

    /** The outcomes and hosts of the breaker; nothing without a breaker. */
    ghost function CircuitNow(): Circuit
      reads BreakerParts()
    {
      if breaker.Some? then Circuit(breaker.value.history, breaker.value.hosts) else Circuit([], map[])
    }

    /** Does the budget count? */
    ghost predicate Counts() {
      match budget
      case None => false
      case Some(Local(_)) => true
      case Some(Shared(shared)) => shared.limit > 0
    }

    ghost predicate BackendValid()
      reads BudgetParts()
    {
      match budget
      case None => true
      case Some(Local(local)) => local.Valid()
      case Some(Shared(shared)) => shared.Valid()
    }

    ghost predicate BudgetValid()
      reads this, BudgetParts()
    {
      && BackendValid() && (budget.Some? && budget.value.Local? ==> unpaid == [])
      && (Counts() ==> Paid(fetches, pending, unpaid, FundsNow().log))
    }

    /** Each step of a call keeps this, so any number of calls may overlap. */
    ghost predicate Valid()
      reads this, BreakerParts(), BudgetParts()
    {
      (breaker.Some? ==> breaker.value.Valid()) && BudgetValid()
    }

    predicate CircuitAllows(host: string, now: real)
      reads BreakerParts()
    {
      breaker.Some? ==> CircuitBreaker.Allows(breaker.value.Of(host), now, breaker.value.reset)
    }

    predicate BudgetAllows(domain: string, redisUp: bool)
      reads BudgetParts()
    {
      match budget
      case None => true
      case Some(Local(local)) => local.limit > 0 ==> local.Used(domain) + 1 <= local.limit
      case Some(Shared(shared)) => shared.limit > 0 && redisUp ==> shared.Counter(domain) + 1 <= shared.limit
    }

    /** The first guard that refuses, if any: robots, then the breaker, then the budget. */
    function Verdict(item: Item, host: string, world: World): Option<Skip>
      reads BreakerParts(), BudgetParts()
    {
      if !world.robotsAllow then Some(Robots)
      else if !CircuitAllows(host, world.askedAt) then Some(CircuitOpen)
      else if !BudgetAllows(item.url.domain, world.redisUp) then Some(BudgetExhausted)
      else None
    }

    /** What one charge leaves. */
    ghost function FundsCharged(domain: string, redisUp: bool): Funds
      reads BudgetParts()
    {
      var charge := Budget.Charge(domain, 1, BudgetAllows(domain, redisUp));
      match budget
      case None => FundsNow()
      case Some(Local(local)) =>
        Funds(local.log + [charge],
              if charge.allowed && local.limit > 0 then local.used[domain := local.Used(domain) + 1] else local.used)
      case Some(Shared(shared)) =>
        if shared.limit > 0 && redisUp
        then Funds(shared.log + [charge], shared.counters[domain := shared.Counter(domain) + 1])
        else FundsNow()
    }

    /** What asking the breaker leaves. */
    ghost function CircuitAsked(host: string, now: real): Circuit
      reads BreakerParts()
    {
      if breaker.None? then CircuitNow()
      else
        var b := breaker.value;
        Circuit(b.history, b.hosts[host := CircuitBreaker.AfterAllow(b.Of(host), now, b.reset)])
    }

    /** What recording the outcome of the fetch leaves. */
    ghost function CircuitRecorded(c: Circuit, host: string, f: Fetch, now: real): Circuit {
      if breaker.None? then c else Recorded(c, host, f, now, breaker.value.threshold)
    }

    /** What an admitted call leaves of the breaker. */
    ghost function FetchRecorded(c: Circuit, host: string, world: World): Circuit {
      if world.failure.AtHeaders? || world.failure.AtFetch? then c
      else CircuitRecorded(c, host, world.fetch, world.fetchedAt)
    }

    /** What a whole call leaves of the breaker: nothing is asked without robots permission, and an outcome is
        recorded exactly when the fetch has come back. */
    ghost function CircuitAfter(host: string, world: World, verdict: Option<Skip>): Circuit
      reads BreakerParts()
    {
      if !world.robotsAllow then CircuitNow()
      else if verdict.Some? then CircuitAsked(host, world.askedAt)
      else FetchRecorded(CircuitAsked(host, world.askedAt), host, world)
    }

    /** And of the budget: a charge exactly when robots and the breaker have let the call through. */
    ghost function FundsAfter(domain: string, world: World, verdict: Option<Skip>): Funds
      reads BudgetParts()
    {
      if verdict == Some(Robots) || verdict == Some(CircuitOpen) then FundsNow()
      else FundsCharged(domain, world.redisUp)
    }

    // ---------------------------------------------------------------- the steps of a call

    method AskBreaker(host: string, now: real) returns (ok: bool)
      requires Valid()
      modifies BreakerParts()
      ensures Valid() && ok == old(CircuitAllows(host, now)) && CircuitNow() == old(CircuitAsked(host, now))
    {
      hide Paid;
      ok := true;
      if breaker.Some? {
        ok := breaker.value.Allow(host, now);
      }
    }

    /** One atomic charge. Redis that cannot be reached lets the call through. */
    method ChargeBudget(domain: string, redisUp: bool) returns (ok: bool)
      requires BudgetValid()
      modifies this`unpaid, this`pending, BudgetParts()
      ensures BudgetValid() && pending == if ok then old(pending) + multiset{domain} else old(pending)
      ensures ok == old(BudgetAllows(domain, redisUp)) && FundsNow() == old(FundsCharged(domain, redisUp))
    {
      ChargeKeepsPaid(domain, redisUp);
      ghost var funds, allows := FundsCharged(domain, redisUp), BudgetAllows(domain, redisUp);
      ghost var admitted := if allows then pending + multiset{domain} else pending;
      ghost var letThrough := if LetsThrough(redisUp) then unpaid + [domain] else unpaid;
      assert BackendValid() && (budget.Some? && budget.value.Local? ==> letThrough == []);
      hide *;
      ok := Consume(domain, redisUp);
      Book(admitted, letThrough, funds);
    }

    /** The account of the charge. */
    ghost method Book(admitted: multiset<string>, letThrough: seq<string>, funds: Funds)
      requires BackendValid() && FundsNow() == funds
      requires budget.Some? && budget.value.Local? ==> letThrough == []
      requires Counts() ==> Paid(fetches, admitted, letThrough, funds.log)
      modifies this`unpaid, this`pending
      ensures BudgetValid() && pending == admitted && unpaid == letThrough && FundsNow() == funds
    {
      hide Paid, Counts;
      unpaid, pending := letThrough, admitted;
    }

    lemma ChargeKeepsPaid(domain: string, redisUp: bool)
      requires BudgetValid()
      ensures Counts() ==>
                Paid(fetches, if BudgetAllows(domain, redisUp) then pending + multiset{domain} else pending,
                     if LetsThrough(redisUp) then unpaid + [domain] else unpaid, FundsCharged(domain, redisUp).log)
    {
      if Counts() {
        PaidOnCharge(fetches, pending, unpaid, FundsNow().log, domain, BudgetAllows(domain, redisUp));
      }
      hide Paid;
    }

    /** The budget counts but fails open. */
    ghost predicate LetsThrough(redisUp: bool) {
      budget.Some? && budget.value.Shared? && budget.value.shared.limit > 0 && !redisUp
    }

    /** `try_consume` of either backend. */
    method Consume(domain: string, redisUp: bool) returns (ok: bool)
      requires BackendValid()
      modifies BudgetParts()
      ensures BackendValid() && ok == old(BudgetAllows(domain, redisUp))
      ensures FundsNow() == old(FundsCharged(domain, redisUp)) && fetches == old(fetches)
    {
      hide Budget.RedisInv, Budget.AnsweredInMemory, Budget.AllowedCost;
      match budget
      case None => ok := true;
      case Some(Local(local)) => ok := local.TryConsume(domain, 1);
      case Some(Shared(shared)) => ok := shared.TryConsume(domain, 1, redisUp);
    }

    /** An admitted call starts its fetch. */
    ghost method StartFetch(domain: string)
      requires BudgetValid() && domain in pending
      modifies this`fetches, this`pending
      ensures BudgetValid() && fetches == old(fetches) + [domain] && pending == old(pending) - multiset{domain}
    {
      ghost var log := FundsNow().log;
      if Counts() {
        PaidOnStart(fetches, pending, unpaid, log, domain);
      }
      assert Counts() ==> Paid(fetches + [domain], pending - multiset{domain}, unpaid, log);
      hide Paid, Counts;
      fetches, pending := fetches + [domain], pending - multiset{domain};
    }

    /** An admitted call raises before its fetch; the budget stays charged. */
    ghost method Abandon(domain: string)
      requires BudgetValid() && domain in pending
      modifies this`pending
      ensures BudgetValid() && pending == old(pending) - multiset{domain}
    {
      if Counts() {
        PaidOnStart(fetches, pending, unpaid, FundsNow().log, domain);
      }
      hide Paid;
      pending := pending - multiset{domain};
    }

    /** `_record_outcome` */
    method RecordOutcome(host: string, f: Fetch, now: real)
      requires breaker.Some? ==> breaker.value.Valid()
      modifies BreakerParts()
      ensures breaker.Some? ==> breaker.value.Valid()
      ensures CircuitNow() == CircuitRecorded(old(CircuitNow()), host, f, now)
    {
      if breaker.None? {
        return;
      }
      if f.error || f.status >= 500 || f.status == 0 {
        breaker.value.RecordFailure(host, now);
      } else {
        breaker.value.RecordSuccess(host);
      }
    }

    // ---------------------------------------------------------------- a whole call

    /** The guards in order. Each one that refuses stops the call before the later ones are touched, and
        leaves what the earlier ones did: a refusal of the budget may leave the breaker half-open. */
    method Admit(item: Item, host: string, world: World) returns (refusal: Option<Skip>)
      requires Valid()
      modifies this`unpaid, this`pending, BreakerParts(), BudgetParts()
      ensures Valid() && refusal == old(Verdict(item, host, world))
      ensures pending == if refusal.None? then old(pending) + multiset{item.url.domain} else old(pending)
      ensures refusal.Some? ==> CircuitNow() == old(CircuitAfter(host, world, refusal))
      ensures refusal.None? ==> old(CircuitAfter(host, world, refusal)) == FetchRecorded(CircuitNow(), host, world)
      ensures FundsNow() == old(FundsAfter(item.url.domain, world, Verdict(item, host, world)))
    {
      hide Paid, CircuitNow, CircuitAsked, FundsNow, FundsCharged, CircuitAllows, BudgetAllows;
      if !world.robotsAllow {
        return Some(Robots);
      }
      var allowed := AskBreaker(host, world.askedAt);
      if !allowed {
        return Some(CircuitOpen);
      }
      var ok := ChargeBudget(item.url.domain, world.redisUp);
      return if ok then None else Some(BudgetExhausted);
    }

    /** An admitted call from the lookup of its validators on: a fetch is started unless something raises
        before, and an outcome is recorded exactly when the fetch has come back. */
    method FetchPage(domain: string, host: string, world: World) returns (r: Reply)
      requires Valid() && domain in pending
      modifies this`fetches, this`pending, BreakerParts()
      ensures Valid() && pending == old(pending) - multiset{domain}
      ensures r == FetchReply(world, dedup) && (r.Answer? ==> Engine.Reported(r.page.result))
      ensures FundsNow() == old(FundsNow())
      ensures fetches == old(fetches) + (if world.failure.AtHeaders? then [] else [domain])
      ensures CircuitNow() == FetchRecorded(old(CircuitNow()), host, world)
    {
      hide Paid, CircuitNow, CircuitRecorded, Budget.RedisInv, Budget.AnsweredInMemory, Budget.AllowedCost;
      hide CircuitBreaker.Tracks, CircuitBreaker.OpenHosts;
      if world.failure.AtHeaders? {
        Abandon(domain);
        return Raised;
      }
      StartFetch(domain);
      if world.failure.AtFetch? {
        return Raised;
      }
      RecordOutcome(host, world.fetch, world.fetchedAt);
      var page := AfterFetch(world.fetch, dedup, world.nearDuplicate);
      return if world.failure.AtStore? && page.stored then Raised else Answer(page);
    }

    /** Everything: a fetch is started exactly when no guard refuses and nothing raises before it, and
        an outcome is recorded exactly when the fetch has come back. */
    method Process(item: Item, host: string, world: World) returns (r: Reply, ghost verdict: Option<Skip>)
      requires Valid()
      modifies this`fetches, this`pending, this`unpaid, BreakerParts(), BudgetParts()
      ensures Valid() && pending == old(pending) && (r.Answer? ==> Engine.Reported(r.page.result))
      ensures verdict == old(Verdict(item, host, world))
      ensures r == if verdict.Some? then Refused(verdict.value) else FetchReply(world, dedup)
      ensures fetches == old(fetches)
                         + if verdict.None? && !world.failure.AtHeaders? then [item.url.domain] else []
      ensures CircuitNow() == old(CircuitAfter(host, world, verdict))
      ensures FundsNow() == old(FundsAfter(item.url.domain, world, verdict))
    {
      var domain := item.url.domain;
      assert pending + multiset{domain} - multiset{domain} == pending && fetches + [] == fetches;
      hide *;
      var refusal := Admit(item, host, world);
      verdict := refusal;
      if refusal.Some? {
        r := Refused(refusal.value);
        RefusedReports(refusal.value);
      } else {
        r := FetchPage(domain, host, world);
      }
    }
  }

  /** What a refused call answers: nothing fetched, stored or found, and the reason. */
  lemma RefusedIs(skip: Skip)
    ensures var r := Refused(skip);
            && r.Answer? && !r.page.stored && r.page.skipped == Some(skip)
            && !r.page.result.fetched && !r.page.result.duplicate && r.page.result.links == []
  {
  }

  /** What an admitted call answers: an exception before the fetch has come back, or while the page is stored,
      leaves the call; a transport error and a 304 are answered before anything is stored. */
  lemma FetchReplyIs(world: World, dedup: bool)
    ensures var f, r := world.fetch, FetchReply(world, dedup);
            && (world.failure.AtHeaders? || world.failure.AtFetch? ==> r == Raised)
            && (world.failure.NoFailure? ==> r == Answer(AfterFetch(f, dedup, world.nearDuplicate)))
            && (world.failure.AtStore? ==>
                  r == if f.error || f.status == 304 then Answer(AfterFetch(f, dedup, world.nearDuplicate)) else Raised)
  {
  }

  /** Which statuses count against a host: with a transport error, status 0 or any from 500 up it has failed once
      more, with any other it is closed and has no failures. */
  lemma OutcomeByStatus(b: CircuitBreaker.Breaker, host: string, f: Fetch, now: real)
    requires b.Valid()
    ensures var c := Recorded(Circuit(b.history, b.hosts), host, f, now, b.threshold);
            if f.error || f.status == 0 || f.status >= 500 then
              && c.history == b.history + [(host, CircuitBreaker.Failed)]
              && CircuitBreaker.FailureRun(c.history, host) == CircuitBreaker.FailureRun(b.history, host) + 1
            else
              && c.history == b.history + [(host, CircuitBreaker.Succeeded)]
              && CircuitBreaker.FailureRun(c.history, host) == 0
              && host in c.hosts && c.hosts[host].state == CircuitBreaker.Closed && c.hosts[host].failures == 0
  {
    CircuitBreaker.RunGrows(b.history, host, OutcomeOf(f), host);
    hide CircuitBreaker.FailureRun;
  }

  /** The same of a whole call that no guard refuses and whose fetch comes back. */
  lemma ProcessByStatus(p: PagePipeline, host: string, world: World)
    requires p.Valid() && p.breaker.Some? && world.robotsAllow
    requires !world.failure.AtHeaders? && !world.failure.AtFetch?
    ensures var f, c, b := world.fetch, p.CircuitAfter(host, world, None), p.breaker.value;
            if f.error || f.status == 0 || f.status >= 500 then
              && c.history == b.history + [(host, CircuitBreaker.Failed)]
              && CircuitBreaker.FailureRun(c.history, host) == CircuitBreaker.FailureRun(b.history, host) + 1
            else
              && c.history == b.history + [(host, CircuitBreaker.Succeeded)]
              && CircuitBreaker.FailureRun(c.history, host) == 0
              && host in c.hosts && c.hosts[host].state == CircuitBreaker.Closed && c.hosts[host].failures == 0
  {
    CircuitBreaker.RunGrows(p.breaker.value.history, host, OutcomeOf(world.fetch), host);
    hide CircuitBreaker.FailureRun, Paid;
  }

  /** Why a call is refused, and that the guards after the first refusal are not asked. */
  lemma VerdictIs(p: PagePipeline, item: Item, host: string, world: World)
    ensures var cooling := p.breaker.Some? && host in p.breaker.value.hosts
                           && p.breaker.value.hosts[host].state == CircuitBreaker.Open
                           && world.askedAt - p.breaker.value.hosts[host].openedAt < p.breaker.value.reset;
            var verdict := p.Verdict(item, host, world);
            && (verdict == Some(Robots) <==> !world.robotsAllow)
            && (verdict == Some(CircuitOpen) <==> world.robotsAllow && cooling)
            && (verdict == Some(BudgetExhausted) <==>
                  world.robotsAllow && !cooling && !p.BudgetAllows(item.url.domain, world.redisUp))
            && (verdict.Some? ==> verdict.value.Robots? || verdict.value.CircuitOpen? || verdict.value.BudgetExhausted?)
            && (!world.robotsAllow ==> p.CircuitAfter(host, world, verdict) == p.CircuitNow())
            && (!world.robotsAllow || cooling ==> p.FundsAfter(item.url.domain, world, verdict) == p.FundsNow())
  {
  }

  /** When the budget lets a domain have one more page. */
  lemma BudgetAllowsIs(p: PagePipeline, domain: string, redisUp: bool)
    requires p.BudgetValid()
    ensures p.budget.None? ==> p.BudgetAllows(domain, redisUp)
    ensures p.budget.Some? && p.budget.value.Local? ==>
              var b := p.budget.value.local;
              p.BudgetAllows(domain, redisUp) <==> b.limit <= 0 || Budget.AllowedCost(b.log, domain) < b.limit
    ensures p.budget.Some? && p.budget.value.Shared? ==>
              var b := p.budget.value.shared;
              p.BudgetAllows(domain, redisUp) <==>
              b.limit <= 0 || !redisUp || Budget.AskedCost(b.log, domain) < b.limit
  {
    match p.budget
    case None =>
    case Some(Local(b)) => assert b.limit > 0 ==> b.Used(domain) == Budget.AllowedCost(b.log, domain);
    case Some(Shared(b)) =>
      assert b.limit > 0 ==> Budget.CountOf(b.counters, domain) == Budget.AskedCost(b.log, domain);
  }

  lemma RefusedReports(skip: Skip)
    ensures Refused(skip).Answer? && Engine.Reported(Refused(skip).page.result)
  {
  }

  /** The reply to an admitted call. An error or a 304 returns before anything is parsed or stored. */
  function FetchReply(world: World, dedup: bool): Reply {
    var page := AfterFetch(world.fetch, dedup, world.nearDuplicate);
    match world.failure
    case NoFailure => Answer(page)
    case AtStore => if page.stored then Raised else Answer(page)
    case _ => Raised
  }

  /** No domain is fetched more often than its budget, however the calls overlap; with the shared budget, which
      counts the charges of all workers, not counting what its failing open let through. */
  lemma FetchesWithinBudget(p: PagePipeline, domain: string)
    requires p.Valid() && p.budget.Some?
    ensures p.budget.value.Local? && p.budget.value.local.limit > 0 ==>
              Count(p.fetches, domain) + p.pending[domain] <= p.budget.value.local.limit
    ensures var b := p.budget.value;
            b.Shared? && b.shared.limit > 0 && Budget.NoRefunds(b.shared.log) ==>
              Count(p.fetches, domain) + p.pending[domain] <= b.shared.limit + Count(p.unpaid, domain)
  {
    match p.budget.value
    case Local(local) =>
      if local.limit > 0 {
        assert local.Used(domain) == Budget.AllowedCost(local.log, domain);
      }
    case Shared(shared) =>
      assert Budget.RedisInv(shared.limit, shared.counters, shared.log) ==>
          Budget.CountOf(shared.counters, domain) == Budget.AskedCost(shared.log, domain);
  }
}
