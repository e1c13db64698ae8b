/** Per-domain crawl budgets, in memory and in Redis (crawler/resilience/budget.py). */
module Budget {
  import opened Bits

  /** One answered request: what was asked and whether it was allowed. */
  datatype Charge = Charge(domain: string, cost: int, allowed: bool)

  function AllowedCost(log: seq<Charge>, domain: string): int {
    if log == [] then 0
    else
      var c := log[|log| - 1];
      AllowedCost(log[..|log| - 1], domain) + if c.domain == domain && c.allowed then c.cost else 0
  }

  function AskedCost(log: seq<Charge>, domain: string): int {
    if log == [] then 0
    else
      var c := log[|log| - 1];
      AskedCost(log[..|log| - 1], domain) + if c.domain == domain then c.cost else 0
  }

  lemma Charged(log: seq<Charge>, c: Charge, domain: string)
    ensures AllowedCost(log + [c], domain) == AllowedCost(log, domain)
                                                 + if c.domain == domain && c.allowed then c.cost else 0
    ensures AskedCost(log + [c], domain) == AskedCost(log, domain) + if c.domain == domain then c.cost else 0
  {
    assert (log + [c])[..|log|] == log;
  }

  predicate FitsInMemory(limit: int, log: seq<Charge>, k: nat)
    requires k < |log|
  {
    log[k].allowed <==> limit <= 0 || AllowedCost(log[..k], log[k].domain) + log[k].cost <= limit
  }

  predicate FitsInRedis(limit: int, log: seq<Charge>, k: nat)
    requires k < |log|
  {
    log[k].allowed <==> AskedCost(log[..k], log[k].domain) + log[k].cost <= limit
  }

  /** Each answer in memory compares what was allowed before with the limit. */
  ghost predicate AnsweredInMemory(limit: int, log: seq<Charge>) {
    forall k {:trigger FitsInMemory(limit, log, k)} :: 0 <= k < |log| ==> FitsInMemory(limit, log, k)
  }

  /** Each answer of Redis compares all that was asked so far with the limit. */
  ghost predicate AnsweredByRedis(limit: int, log: seq<Charge>) {
    forall k {:trigger FitsInRedis(limit, log, k)} :: 0 <= k < |log| ==> FitsInRedis(limit, log, k)
  }

  lemma OneMoreAnswer(limit: int, log: seq<Charge>, c: Charge)
    ensures AnsweredInMemory(limit, log) && (c.allowed <==> limit <= 0 || AllowedCost(log, c.domain) + c.cost <= limit)
            ==> AnsweredInMemory(limit, log + [c])
    ensures AnsweredByRedis(limit, log) && (c.allowed <==> AskedCost(log, c.domain) + c.cost <= limit) ==>
            AnsweredByRedis(limit, log + [c])
  {
    assert (log + [c])[..|log|] == log;
    hide AllowedCost, AskedCost;
    forall k | 0 <= k < |log|
      ensures FitsInMemory(limit, log + [c], k) <==> FitsInMemory(limit, log, k)
      ensures FitsInRedis(limit, log + [c], k) <==> FitsInRedis(limit, log, k)
    {
      assert (log + [c])[..k] == log[..k];
    }
  }

  class InMemoryDomainBudget {
    const limit: int
    var used: map<string, int>
    ghost var log: seq<Charge>

    function Used(domain: string): int
      reads this
    {
      if domain in used then used[domain] else 0
    }

    /** The counter is the cost allowed so far, which never exceeds the limit, whatever the costs. */
    ghost predicate Valid()
      reads this
    {
      && AnsweredInMemory(limit, log)
      && (limit > 0 ==> forall domain :: Used(domain) == AllowedCost(log, domain) <= limit)
    }

    constructor (limit: int)
      ensures Valid() && this.limit == limit && log == [] && used == map[]
    {
      this.limit := limit;
      used, log := map[], [];
    }

    method TryConsume(domain: string, cost: int) returns (ok: bool)
      requires Valid()
      modifies this
      ensures Valid() && log == old(log) + [Charge(domain, cost, ok)]
      ensures ok <==> limit <= 0 || old(Used(domain)) + cost <= limit
      ensures used == if ok && limit > 0 then old(used)[domain := old(Used(domain)) + cost] else old(used)
    {
      OneMoreAnswer(limit, log, Charge(domain, cost, limit <= 0 || Used(domain) + cost <= limit));
      hide AnsweredInMemory;
      if limit <= 0 {
        log := log + [Charge(domain, cost, true)];
        return true;
      }
      var u := Used(domain);
      ok := u + cost <= limit;
      log := log + [Charge(domain, cost, ok)];
      if ok {
        used := used[domain := u + cost];
      }
      hide AllowedCost;
      forall d
        ensures Used(d) == AllowedCost(log, d) <= limit
      {
        Charged(old(log), Charge(domain, cost, ok), d);
      }
    }

    function Remaining(domain: string): int
      reads this
    {
      if limit <= 0 then -1 else if limit - Used(domain) > 0 then limit - Used(domain) else 0
    }
  }

  ghost predicate NoRefunds(log: seq<Charge>) {
    forall c :: c in log ==> c.cost >= 0
  }

  lemma {:induction false} AllowedNonNegative(log: seq<Charge>, domain: string)
    requires NoRefunds(log)
    ensures AllowedCost(log, domain) >= 0
  {
    if log != [] {
      assert forall c :: c in log[..|log| - 1] ==> c in log;
      assert log[|log| - 1] in log;
      AllowedNonNegative(log[..|log| - 1], domain);
    }
  }

  function CountOf(counters: map<string, int>, domain: string): int {
    if domain in counters then counters[domain] else 0
  }

  /** As long as no cost is negative, what was allowed never exceeds the limit. */
  ghost predicate RedisInv(limit: int, counters: map<string, int>, log: seq<Charge>) {
    && AnsweredByRedis(limit, log)
    && forall domain ::
         && CountOf(counters, domain) == AskedCost(log, domain)
         && (NoRefunds(log) ==> AllowedCost(log, domain) <= limit && AllowedCost(log, domain) <= AskedCost(log, domain))
  }

  lemma RedisCharged(limit: int, counters: map<string, int>, log: seq<Charge>, domain: string, cost: int)
    requires RedisInv(limit, counters, log)
    ensures var count := CountOf(counters, domain) + cost;
            RedisInv(limit, counters[domain := count], log + [Charge(domain, cost, count <= limit)])
  {
    var count := CountOf(counters, domain) + cost;
    var c := Charge(domain, cost, count <= limit);
    OneMoreAnswer(limit, log, c);
    assert NoRefunds(log + [c]) ==> NoRefunds(log) && cost >= 0 by {
      assert (log + [c])[|log|] == c;
      assert forall x :: x in log ==> x in log + [c];
    }
    hide AskedCost, AllowedCost, NoRefunds, AnsweredByRedis;
    forall d
      ensures CountOf(counters[domain := count], d) == AskedCost(log + [c], d)
      ensures NoRefunds(log + [c]) ==>
              AllowedCost(log + [c], d) <= limit && AllowedCost(log + [c], d) <= AskedCost(log + [c], d)
    {
      Charged(log, c, d);
      assert CountOf(counters, d) == AskedCost(log, d);
    }
  }

  class RedisDomainBudget {
    const limit: int
    /** The shared counters, which INCRBY changes whether or not the request is then allowed. */
    var counters: map<string, int>
    /** The requests that reached Redis. */
    ghost var log: seq<Charge>

    function Counter(domain: string): int
      reads this
    {
      CountOf(counters, domain)
    }

    ghost predicate Valid()
      reads this
    {
      limit > 0 ==> RedisInv(limit, counters, log)
    }

    constructor (limit: int)
      ensures Valid() && this.limit == limit && log == [] && counters == map[]
    {
      this.limit := limit;
      counters, log := map[], [];
    }

    /** Fails open when Redis cannot be reached. */
    method TryConsume(domain: string, cost: int, up: bool) returns (ok: bool)
      requires Valid()
      modifies this
      ensures Valid()
      ensures limit <= 0 || !up ==> ok && counters == old(counters) && log == old(log)
      ensures limit > 0 && up ==>
                && (ok <==> old(Counter(domain)) + cost <= limit)
                && counters == old(counters)[domain := old(Counter(domain)) + cost]
                && log == old(log) + [Charge(domain, cost, ok)]
    {
      if limit <= 0 || !up {
        return true;
      }
      RedisCharged(limit, counters, log, domain, cost);
      hide RedisInv;
      var count := Counter(domain) + cost;
      counters := counters[domain := count];
      ok := count <= limit;
      log := log + [Charge(domain, cost, ok)];
    }

    function Remaining(domain: string, up: bool): int
      reads this
    {
      if limit <= 0 || !up then -1 else if limit - Counter(domain) > 0 then limit - Counter(domain) else 0
    }
  }

  /** What is left is the limit less what was allowed, or in Redis less what was asked, but never negative. */
  lemma RemainingIs(a: InMemoryDomainBudget, b: RedisDomainBudget, domain: string)
    requires a.Valid() && b.Valid()
    ensures a.limit > 0 ==> a.Remaining(domain) == a.limit - AllowedCost(a.log, domain)
    ensures b.limit > 0 ==>
              var left := b.limit - AskedCost(b.log, domain);
              b.Remaining(domain, true) == if left > 0 then left else 0
    ensures (a.limit <= 0 ==> a.Remaining(domain) == -1) && (b.limit <= 0 ==> b.Remaining(domain, true) == -1)
    ensures b.Remaining(domain, false) == -1
  {
    assert a.limit > 0 ==> a.Used(domain) == AllowedCost(a.log, domain) <= a.limit;
    assert b.limit > 0 ==> CountOf(b.counters, domain) == AskedCost(b.log, domain);
  }

  // ---------------------------------------------------------------- the two budgets compared

  /** Counters after requests of one fixed cost for the listed domains. */
  function MemUsed(limit: int, cost: int, calls: seq<string>, domain: string): int {
    if calls == [] then 0
    else
      var u := MemUsed(limit, cost, calls[..|calls| - 1], domain);
      if calls[|calls| - 1] == domain && u + cost <= limit then u + cost else u
  }

  function RedisUsed(cost: int, calls: seq<string>, domain: string): int {
    if calls == [] then 0
    else RedisUsed(cost, calls[..|calls| - 1], domain) + if calls[|calls| - 1] == domain then cost else 0
  }

  function Left(limit: int, used: int): int {
    if limit - used > 0 then limit - used else 0
  }

  lemma {:induction false} CountersRelate(limit: int, cost: int, calls: seq<string>, domain: string)
    requires limit > 0 && cost > 0
    ensures var m, r := MemUsed(limit, cost, calls, domain), RedisUsed(cost, calls, domain);
            && 0 <= m <= limit && m % cost == 0
            && (if r <= limit then m == r else m + cost > limit)
    decreases |calls|
  {
    if calls != [] {
      CountersRelate(limit, cost, calls[..|calls| - 1], domain);
      NextMultiple(MemUsed(limit, cost, calls[..|calls| - 1], domain), cost);
    }
  }

  lemma NextMultiple(m: int, cost: int)
    requires cost > 0 && m % cost == 0
    ensures (m + cost) % cost == 0
  {
    assert m == m / cost * cost;
    assert m + cost == (m / cost + 1) * cost;
    DivisionUnique(m + cost, cost, m / cost + 1, 0);
  }

  /** For requests of one cost, interleaved over any domains, both budgets give the same answers. */
  lemma SameAnswers(limit: int, cost: int, calls: seq<string>, domain: string)
    requires limit > 0 && cost > 0
    ensures MemUsed(limit, cost, calls, domain) + cost <= limit <==> RedisUsed(cost, calls, domain) + cost <= limit
  {
    CountersRelate(limit, cost, calls, domain);
  }

  ghost predicate SameRemaining(limit: int, cost: int) {
    forall calls, domain ::
      Left(limit, MemUsed(limit, cost, calls, domain)) == Left(limit, RedisUsed(cost, calls, domain))
  }

  lemma {:induction false} RepeatedCalls(cost: int, n: nat, domain: string)
    ensures RedisUsed(cost, seq(n, _ => domain), domain) == n * cost
  {
    if n > 0 {
      assert seq(n, _ => domain)[..n - 1] == seq(n - 1, _ => domain);
      RepeatedCalls(cost, n - 1, domain);
      assert n * cost == (n - 1) * cost + cost;
    }
  }

  lemma MultiplesMeet(limit: int, cost: int, m: int)
    requires cost > 0 && m % cost == 0 && limit % cost == 0 && m <= limit < m + cost
    ensures m == limit
  {
    assert limit == limit / cost * cost && m == m / cost * cost;
    assert (limit / cost - m / cost) * cost == limit - m;
    MultiplesApart(limit / cost - m / cost, cost);
  }

  /** They also report the same remainder exactly when the cost divides the limit, as unit cost does:
      Redis also charges the requests that it refuses. */
  lemma SameRemainingIff(limit: int, cost: int)
    requires limit > 0 && cost > 0
    ensures SameRemaining(limit, cost) <==> limit % cost == 0
  {
    if limit % cost == 0 {
      forall calls, domain
        ensures Left(limit, MemUsed(limit, cost, calls, domain)) == Left(limit, RedisUsed(cost, calls, domain))
      {
        CountersRelate(limit, cost, calls, domain);
        if RedisUsed(cost, calls, domain) > limit {
          MultiplesMeet(limit, cost, MemUsed(limit, cost, calls, domain));
        }
      }
    } else {
      assert limit / cost * cost + limit % cost == limit;
      var n := limit / cost + 1;
      assert n * cost == limit / cost * cost + cost;
      var calls := seq(n, _ => "d");
      RepeatedCalls(cost, n, "d");
      CountersRelate(limit, cost, calls, "d");
    }
  }

  lemma UnitCostAgrees(limit: int, calls: seq<string>, domain: string)
    requires limit > 0
    ensures MemUsed(limit, 1, calls, domain) < limit <==> RedisUsed(1, calls, domain) < limit
    ensures Left(limit, MemUsed(limit, 1, calls, domain)) == Left(limit, RedisUsed(1, calls, domain))
  {
    SameAnswers(limit, 1, calls, domain);
    SameRemainingIff(limit, 1);
  }

  // ---------------------------------------------------------------- two budgets that have answered the same requests

  function Domains(log: seq<Charge>): seq<string> {
    if log == [] then [] else Domains(log[..|log| - 1]) + [log[|log| - 1].domain]
  }

  ghost predicate OfCost(log: seq<Charge>, cost: int) {
    forall c :: c in log ==> c.cost == cost
  }

  lemma {:induction false} DomainAt(log: seq<Charge>, k: nat)
    requires k <= |log|
    ensures |Domains(log)| == |log| && Domains(log)[..k] == Domains(log[..k])
    ensures k < |log| ==> Domains(log)[k] == log[k].domain
  {
    if log != [] {
      var n := |log| - 1;
      if k <= n {
        DomainAt(log[..n], k);
        assert log[..n][..k] == log[..k];
      } else {
        DomainAt(log[..n], n);
        assert log[..k] == log;
        assert Domains(log)[..k] == Domains(log);
      }
    }
  }

  lemma PrefixAnswered(limit: int, log: seq<Charge>, n: nat)
    requires AnsweredInMemory(limit, log) && n <= |log|
    ensures AnsweredInMemory(limit, log[..n])
  {
    hide AllowedCost;
    forall k | 0 <= k < n
      ensures FitsInMemory(limit, log[..n], k)
    {
      assert FitsInMemory(limit, log, k) && log[..n][..k] == log[..k];
    }
  }

  lemma {:induction false} MemUsedIs(limit: int, cost: int, log: seq<Charge>, domain: string)
    requires limit > 0 && AnsweredInMemory(limit, log) && OfCost(log, cost)
    ensures AllowedCost(log, domain) == MemUsed(limit, cost, Domains(log), domain)
    decreases |log|
  {
    if log != [] {
      var n := |log| - 1;
      assert FitsInMemory(limit, log, n);
      PrefixAnswered(limit, log, n);
      MemUsedIs(limit, cost, log[..n], domain);
      DomainAt(log, n);
      assert log[n] in log;
    }
  }

  lemma {:induction false} RedisUsedIs(cost: int, log: seq<Charge>, domain: string)
    requires OfCost(log, cost)
    ensures AskedCost(log, domain) == RedisUsed(cost, Domains(log), domain)
    decreases |log|
  {
    if log != [] {
      var n := |log| - 1;
      RedisUsedIs(cost, log[..n], domain);
      DomainAt(log, n);
      assert log[n] in log;
    }
  }

  /** Two budgets that were asked the same, in one cost per request: the same answers in the same order,
      and the same remainder if the cost divides the limit. */
  lemma BudgetsAgree(a: InMemoryDomainBudget, b: RedisDomainBudget, cost: int, domain: string)
    requires a.Valid() && b.Valid() && a.limit == b.limit > 0 && cost > 0
    requires Domains(a.log) == Domains(b.log) && OfCost(a.log, cost) && OfCost(b.log, cost)
    ensures a.log == b.log
    ensures a.limit % cost == 0 ==> a.Remaining(domain) == b.Remaining(domain, true)
  {
    LogsAgree(a.limit, cost, a.log, b.log);
    MemUsedIs(a.limit, cost, a.log, domain);
    RedisUsedIs(cost, b.log, domain);
    if a.limit % cost == 0 {
      SameRemainingIff(a.limit, cost);
      assert Left(a.limit, MemUsed(a.limit, cost, Domains(a.log), domain))
          == Left(a.limit, RedisUsed(cost, Domains(a.log), domain));
    }
  }

  lemma LogsAgree(limit: int, cost: int, a: seq<Charge>, b: seq<Charge>)
    requires limit > 0 && cost > 0 && AnsweredInMemory(limit, a) && AnsweredByRedis(limit, b)
    requires Domains(a) == Domains(b) && OfCost(a, cost) && OfCost(b, cost)
    ensures a == b
  {
    DomainAt(a, |a|);
    DomainAt(b, |b|);
    forall k | 0 <= k < |a|
      ensures a[k] == b[k]
    {
      AnswerAgrees(limit, cost, a, b, k);
    }
  }

  lemma AnswerAgrees(limit: int, cost: int, a: seq<Charge>, b: seq<Charge>, k: nat)
    requires limit > 0 && cost > 0 && AnsweredInMemory(limit, a) && AnsweredByRedis(limit, b)
    requires Domains(a) == Domains(b) && OfCost(a, cost) && OfCost(b, cost) && k < |a| == |b|
    ensures a[k] == b[k]
  {
    DomainAt(a, k);
    DomainAt(b, k);
    PrefixAnswered(limit, a, k);
    assert FitsInMemory(limit, a, k) && FitsInRedis(limit, b, k);
    assert OfCost(a[..k], cost) && OfCost(b[..k], cost);
    MemUsedIs(limit, cost, a[..k], a[k].domain);
    RedisUsedIs(cost, b[..k], a[k].domain);
    SameAnswers(limit, cost, Domains(a[..k]), a[k].domain);
    assert a[k] in a && b[k] in b;
    hide AllowedCost, AskedCost, MemUsed, RedisUsed, Domains;
  }
}
