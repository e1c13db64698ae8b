/** The LRU cache with optional TTL (crawler/cache/lru.py). */
module Lru {
  import opened Wrappers

  // ---------------------------------------------------------------- recency lists, least recent first

  ghost predicate Distinct<K(!new)>(l: seq<K>) {
    forall i, j :: 0 <= i < j < |l| ==> l[i] != l[j]
  }

  function Keys<K(!new)>(l: seq<K>): set<K> {
    set k | k in l
  }

  /** The members of `l` that are in `keep`, in order. */
  function Restrict<K(==,!new)>(l: seq<K>, keep: set<K>): (r: seq<K>)
    ensures |r| <= |l|
  {
    if l == [] then []
    else if l[0] in keep then [l[0]] + Restrict(l[1..], keep)
    else Restrict(l[1..], keep)
  }

  function Without<K(==,!new)>(l: seq<K>, k: K): seq<K> {
    if l == [] then []
    else if l[0] == k then Without(l[1..], k)
    else [l[0]] + Without(l[1..], k)
  }

  function MoveToEnd<K(==,!new)>(l: seq<K>, k: K): seq<K> {
    Without(l, k) + [k]
  }

  function LastN<K(!new)>(l: seq<K>, n: nat): seq<K> {
    if |l| <= n then l else l[|l| - n..]
  }

  /** What happens to a key: a put or a hit, or the discovery that its entry has expired. */
  datatype Event<K> = Access(key: K) | Drop(key: K)

  /** The reference: all keys accessed and not dropped since, by last access. */
  function Recency<K(==,!new)>(trace: seq<Event<K>>): seq<K> {
    if trace == [] then []
    else
      var before := Recency(trace[..|trace| - 1]);
      match trace[|trace| - 1]
      case Access(k) => MoveToEnd(before, k)
      case Drop(k) => Without(before, k)
  }

  ghost predicate NoDrops<K(!new)>(trace: seq<Event<K>>) {
    forall e :: e in trace ==> e.Access?
  }

  datatype Op<K> = Get(key: K) | Put(key: K)

  /** What the operations of the cache do to the key order when nothing expires. */
  function After<K(==,!new)>(order: seq<K>, op: Op<K>, capacity: nat): seq<K> {
    match op
    case Get(k) => if k in order then MoveToEnd(order, k) else order
    case Put(k) => LastN(MoveToEnd(order, k), capacity)
  }

  function AfterAll<K(==,!new)>(ops: seq<Op<K>>, capacity: nat): seq<K> {
    if ops == [] then [] else After(AfterAll(ops[..|ops| - 1], capacity), ops[|ops| - 1], capacity)
  }

  lemma OneMoreOp<K(!new)>(ops: seq<Op<K>>, op: Op<K>, capacity: nat)
    ensures AfterAll(ops + [op], capacity) == After(AfterAll(ops, capacity), op, capacity)
  {
    assert (ops + [op])[..|ops|] == ops;
  }

  lemma {:induction false} WithoutAbsent<K(!new)>(l: seq<K>, k: K)
    requires k !in l
    ensures Without(l, k) == l
  {
    if l != [] {
      WithoutAbsent(l[1..], k);
    }
  }

  lemma WithoutAbsentKey<K(!new)>(l: seq<K>, k: K)
    ensures k !in Keys(l) ==> Without(l, k) == l
  {
    if k !in Keys(l) {
      WithoutAbsent(l, k);
    }
  }

  lemma {:induction false} WithoutKeys<K(!new)>(l: seq<K>, k: K)
    ensures forall x :: x in Without(l, k) <==> x in l && x != k
    ensures Distinct(l) ==> Distinct(Without(l, k))
    ensures Distinct(l) && k in l ==> |Without(l, k)| == |l| - 1
  {
    if l != [] {
      WithoutKeys(l[1..], k);
      assert Distinct(l) ==> Distinct(l[1..]) && l[0] !in l[1..];
      if l[0] == k && Distinct(l) {
        WithoutAbsent(l[1..], k);
      }
    }
  }

  lemma KeysWithout<K(!new)>(l: seq<K>, k: K)
    ensures Keys(Without(l, k)) == Keys(l) - {k}
  {
    WithoutKeys(l, k);
    forall x
      ensures x in Keys(Without(l, k)) <==> x in Keys(l) - {k}
    {
    }
  }

  lemma {:induction false} WithoutConcat<K(!new)>(a: seq<K>, b: seq<K>, k: K)
    ensures Without(a + b, k) == Without(a, k) + Without(b, k)
  {
    if a == [] {
      assert a + b == b;
    } else {
      assert (a + b)[1..] == a[1..] + b;
      WithoutConcat(a[1..], b, k);
    }
  }

  lemma MovedKeys<K(!new)>(l: seq<K>, k: K)
    requires Distinct(l)
    ensures Distinct(MoveToEnd(l, k)) && Keys(MoveToEnd(l, k)) == Keys(l) + {k}
    ensures |MoveToEnd(l, k)| == |l| + if k in l then 0 else 1
  {
    WithoutKeys(l, k);
    if k !in l {
      WithoutAbsent(l, k);
    }
    forall x
      ensures x in Keys(MoveToEnd(l, k)) <==> x in Keys(l) + {k}
    {
      assert x in MoveToEnd(l, k) <==> x in Without(l, k) || x == k;
    }
  }

  lemma {:induction false} RecencyDistinct<K(!new)>(trace: seq<Event<K>>)
    ensures Distinct(Recency(trace))
    decreases |trace|
  {
    if trace != [] {
      var before, e := Recency(trace[..|trace| - 1]), trace[|trace| - 1];
      RecencyDistinct(trace[..|trace| - 1]);
      MovedKeys(before, e.key);
      WithoutKeys(before, e.key);
    }
  }

  lemma OneMoreEvent<K(!new)>(trace: seq<Event<K>>, e: Event<K>)
    ensures Recency(trace + [e]) == if e.Access? then MoveToEnd(Recency(trace), e.key)
            else Without(Recency(trace), e.key)
    ensures NoDrops(trace + [e]) <==> NoDrops(trace) && e.Access?
  {
    assert (trace + [e])[..|trace|] == trace;
  }

  /** The last `n` of a list, moved to the end and cut again, are the last `n` of the moved list. */
  lemma MoveThenCut<K(!new)>(l: seq<K>, k: K, n: nat)
    requires Distinct(l) && n > 0
    ensures LastN(MoveToEnd(LastN(l, n), k), n) == LastN(MoveToEnd(l, k), n)
  {
    if |l| > n {
      CutMoved(l[..|l| - n], l[|l| - n..], k);
      assert l == l[..|l| - n] + l[|l| - n..];
    }
  }

  lemma CutMoved<K(!new)>(older: seq<K>, recent: seq<K>, k: K)
    requires Distinct(older + recent) && recent != []
    ensures LastN(MoveToEnd(recent, k), |recent|) == LastN(MoveToEnd(older + recent, k), |recent|)
  {
    MovePastOlder(older, recent, k);
    WithoutKeys(recent, k);
    TailDistinct(older, recent);
    var kept := if k in recent then older else Without(older, k);
    assert |MoveToEnd(recent, k)| >= |recent|;
    hide *;
    LastOfConcat(kept, MoveToEnd(recent, k), |recent|);
  }

  lemma MovePastOlder<K(!new)>(older: seq<K>, recent: seq<K>, k: K)
    requires Distinct(older + recent)
    ensures MoveToEnd(older + recent, k) == (if k in recent then older else Without(older, k)) + MoveToEnd(recent, k)
    ensures k !in recent ==> |MoveToEnd(recent, k)| == |recent| + 1
  {
    WithoutConcat(older, recent, k);
    if k in recent {
      NotBefore(older, recent, k);
      WithoutAbsent(older, k);
    } else {
      WithoutAbsent(recent, k);
    }
    hide Distinct, Without;
  }

  lemma LastOfConcat<K(!new)>(a: seq<K>, b: seq<K>, n: nat)
    requires n <= |b|
    ensures LastN(a + b, n) == LastN(b, n)
  {
  }

  lemma NotBefore<K(!new)>(older: seq<K>, recent: seq<K>, k: K)
    requires Distinct(older + recent) && k in recent
    ensures k !in older
  {
    var i :| 0 <= i < |recent| && recent[i] == k;
    assert (older + recent)[|older| + i] == k;
    assert forall j :: 0 <= j < |older| ==> (older + recent)[j] == older[j];
  }

  lemma TailDistinct<K(!new)>(older: seq<K>, recent: seq<K>)
    requires Distinct(older + recent)
    ensures Distinct(recent)
  {
    forall i, j | 0 <= i < j < |recent|
      ensures recent[i] != recent[j]
    {
      assert (older + recent)[|older| + i] != (older + recent)[|older| + j];
    }
  }

  lemma HeadDropped<K(!new)>(l: seq<K>)
    requires Distinct(l) && l != []
    ensures Distinct(l[1..]) && Keys(l[1..]) == Keys(l) - {l[0]}
  {
  }

  lemma {:induction false} CutDistinct<K(!new)>(l: seq<K>, n: nat)
    requires Distinct(l)
    ensures Distinct(LastN(l, n)) && |LastN(l, n)| <= n
  {
  }

  lemma ShortUncut<K(!new)>(l: seq<K>, n: nat)
    requires |l| <= n
    ensures LastN(l, n) == l
  {
  }

  /** A key is listed exactly when it has been accessed and not dropped since. */
  lemma {:induction false} RecencyHas<K(!new)>(trace: seq<Event<K>>, k: K)
    ensures k in Recency(trace) <==>
            exists p :: 0 <= p < |trace| && trace[p] == Access(k) && NotDroppedAfter(trace, k, p)
    decreases |trace|
  {
    if trace != [] {
      var n := |trace| - 1;
      RecencyHas(trace[..n], k);
      RecencyDistinct(trace[..n]);
      MovedKeys(Recency(trace[..n]), trace[n].key);
      WithoutKeys(Recency(trace[..n]), trace[n].key);
      MovedHas(Recency(trace[..n]), trace[n].key, k);
      HasSnoc(trace, k);
      hide Recency, MoveToEnd, Without, NotDroppedAfter, Distinct, Keys;
    }
  }

  ghost predicate NotDroppedAfter<K(!new)>(trace: seq<Event<K>>, k: K, p: int) {
    forall q :: 0 <= p < q < |trace| ==> trace[q] != Drop(k)
  }

  lemma MovedHas<K(!new)>(l: seq<K>, key: K, k: K)
    ensures k in MoveToEnd(l, key) <==> k in l || k == key
  {
    WithoutKeys(l, key);
  }

  lemma HasSnoc<K(!new)>(trace: seq<Event<K>>, k: K)
    requires trace != []
    ensures var n := |trace| - 1;
            var before := exists p :: 0 <= p < n && trace[..n][p] == Access(k) && NotDroppedAfter(trace[..n], k, p);
            (exists p :: 0 <= p < |trace| && trace[p] == Access(k) && NotDroppedAfter(trace, k, p)) <==>
            trace[n] == Access(k) || (before && trace[n] != Drop(k))
  {
    var n := |trace| - 1;
    forall p | 0 <= p < n
      ensures NotDroppedAfter(trace, k, p) <==> NotDroppedAfter(trace[..n], k, p) && trace[n] != Drop(k)
    {
      assert forall q :: p < q < n ==> trace[..n][q] == trace[q];
    }
    assert NotDroppedAfter(trace, k, n);
    if p :| 0 <= p < n && trace[..n][p] == Access(k) && NotDroppedAfter(trace[..n], k, p) {
      assert trace[p] == Access(k);
    }
    if p :| 0 <= p < n && trace[p] == Access(k) && NotDroppedAfter(trace, k, p) {
      assert trace[..n][p] == Access(k);
    }
    hide NotDroppedAfter;
  }

  /** Of two listed keys the later one was accessed after every access of the earlier one. */
  lemma {:induction false} RecencyByLastAccess<K(!new)>(trace: seq<Event<K>>, i: nat, j: nat, p: nat)
    requires i < j < |Recency(trace)| && p < |trace| && trace[p] == Access(Recency(trace)[i])
    ensures exists q :: p < q < |trace| && trace[q] == Access(Recency(trace)[j])
    decreases |trace|
  {
    var n := |trace| - 1;
    var before, l := Recency(trace[..n]), Recency(trace);
    RecencyDistinct(trace);
    WithoutKeys(before, trace[n].key);
    if trace[n] == Access(l[j]) {
      assert l[i] != l[j];
    } else {
      assert l[i] != trace[n].key || trace[n].Drop? by {
        assert trace[n].Access? ==> l[|l| - 1] == trace[n].key;
      }
      var i', j' := WithoutKeepsOrder(before, trace[n].key, i, j);
      RecencyByLastAccess(trace[..n], i', j', p);
    }
  }

  lemma {:induction false} WithoutKeepsOrder<K(!new)>(l: seq<K>, k: K, i: nat, j: nat) returns (i': nat, j': nat)
    requires i < j < |Without(l, k)|
    ensures i' < j' < |l| && l[i'] == Without(l, k)[i] && l[j'] == Without(l, k)[j]
  {
    if l[0] == k {
      i', j' := WithoutKeepsOrder(l[1..], k, i, j);
      i', j' := i' + 1, j' + 1;
    } else if i > 0 {
      i', j' := WithoutKeepsOrder(l[1..], k, i - 1, j - 1);
      i', j' := i' + 1, j' + 1;
    } else {
      i' := 0;
      j' := Position(l[1..], Without(l[1..], k)[j - 1], k);
      j' := j' + 1;
    }
  }

  lemma Position<K(!new)>(l: seq<K>, x: K, k: K) returns (p: nat)
    requires x in Without(l, k)
    ensures p < |l| && l[p] == x
  {
    WithoutKeys(l, k);
    p :| p < |l| && l[p] == x;
  }

  /** The cache holds the most recent keys, and exactly as many as fit unless an expired key was dropped. */
  ghost predicate RecencyLaw<K(!new)>(trace: seq<Event<K>>, order: seq<K>, n: nat) {
    && order == LastN(Recency(trace), |order|)
    && (NoDrops(trace) ==> order == LastN(Recency(trace), n))
  }

  /** One access keeps the law. */
  lemma AccessKeepsLaw<K(!new)>(trace: seq<Event<K>>, order: seq<K>, key: K, n: nat)
    requires n > 0 && Distinct(order) && |order| <= n
    ensures var order' := LastN(MoveToEnd(order, key), n);
            && Distinct(order') && |order'| <= n && order' != [] && order'[|order'| - 1] == key
            && (RecencyLaw(trace, order, n) ==> RecencyLaw(trace + [Access(key)], order', n))
  {
    MovedKeys(order, key);
    CutDistinct(MoveToEnd(order, key), n);
    RecencyDistinct(trace);
    OneMoreEvent(trace, Access(key));
    if RecencyLaw(trace, order, n) {
      MoveThenCut(Recency(trace), key, n);
      MoveKeepsSuffix(Recency(trace), order, key, n);
    }
  }

  lemma MoveKeepsSuffix<K(!new)>(l: seq<K>, order: seq<K>, key: K, n: nat)
    requires Distinct(l) && order == LastN(l, |order|) && |order| <= n
    ensures var order' := LastN(MoveToEnd(order, key), n); order' == LastN(MoveToEnd(l, key), |order'|)
  {
    var older := l[..|l| - |order|];
    assert l == older + order;
    MovePastOlder(older, order, key);
    var kept := if key in order then older else Without(older, key);
    LastOfConcat(kept, MoveToEnd(order, key), |LastN(MoveToEnd(order, key), n)|);
    hide Distinct, MoveToEnd, Without;
  }

  /** So does dropping an expired key. */
  lemma DropKeepsLaw<K(!new)>(trace: seq<Event<K>>, order: seq<K>, key: K, n: nat)
    requires RecencyLaw(trace, order, n)
    ensures RecencyLaw(trace + [Drop(key)], Without(order, key), n)
  {
    OneMoreEvent(trace, Drop(key));
    var l := Recency(trace);
    var older := l[..|l| - |order|];
    assert l == older + order;
    WithoutConcat(older, order, key);
    LastOfConcat(Without(older, key), Without(order, key), |Without(order, key)|);
    hide Recency, Without;
  }

  // ---------------------------------------------------------------- the cache

  type Entries<K, V> = map<K, (V, real)>

  /** The keys of the ordered dictionary, least recently used first, and its entries. */
  ghost predicate Shape<K(!new), V>(capacity: nat, order: seq<K>, data: Entries<K, V>, lastPut: Entries<K, V>) {
    && Distinct(order) && |order| <= capacity && Keys(order) == data.Keys
    && forall k :: k in data ==> k in lastPut && data[k] == lastPut[k]
  }

  /** How the order follows from what has happened. */
  ghost predicate History<K(!new)>(capacity: nat, noTtl: bool, order: seq<K>, trace: seq<Event<K>>, ops: seq<Op<K>>) {
    && RecencyLaw(trace, order, capacity)
    && (noTtl ==> NoDrops(trace) && order == AfterAll(ops, capacity))
  }

  /** What has happened since the cache was made, the calls made, and the latest put of each key. */
  datatype Past<K, V> = Past(trace: seq<Event<K>>, ops: seq<Op<K>>, lastPut: Entries<K, V>)

  lemma HitInHistory<K(!new)>(capacity: nat, noTtl: bool, order: seq<K>, trace: seq<Event<K>>, ops: seq<Op<K>>, key: K)
    requires History(capacity, noTtl, order, trace, ops) && capacity > 0 && Distinct(order) && |order| <= capacity
    requires key in order
    ensures History(capacity, noTtl, MoveToEnd(order, key), trace + [Access(key)], ops + [Op.Get(key)])
    ensures Distinct(MoveToEnd(order, key)) && |MoveToEnd(order, key)| == |order|
            && Keys(MoveToEnd(order, key)) == Keys(order)
  {
    OneMoreOp(ops, Op.Get(key), capacity);
    OneMoreEvent(trace, Access(key));
    MovedKeys(order, key);
    AccessKeepsLaw(trace, order, key, capacity);
    ShortUncut(MoveToEnd(order, key), capacity);
    assert Keys(order) + {key} == Keys(order);
    hide Distinct, RecencyLaw, NoDrops, AfterAll, MoveToEnd, LastN, Keys;
  }

  lemma DropInHistory<K(!new)>(capacity: nat, order: seq<K>, trace: seq<Event<K>>, ops: seq<Op<K>>, key: K)
    requires History(capacity, false, order, trace, ops) && Distinct(order)
    ensures History(capacity, false, Without(order, key), trace + [Drop(key)], ops + [Op.Get(key)])
    ensures Distinct(Without(order, key)) && |Without(order, key)| <= |order|
            && Keys(Without(order, key)) == Keys(order) - {key}
  {
    WithoutKeys(order, key);
    KeysWithout(order, key);
    DropKeepsLaw(trace, order, key, capacity);
    WithoutAbsentKey(order, key);
    hide Distinct, RecencyLaw, Without, Keys;
  }

  lemma MissInHistory<K(!new)>(capacity: nat, noTtl: bool, order: seq<K>, trace: seq<Event<K>>, ops: seq<Op<K>>, key: K)
    requires History(capacity, noTtl, order, trace, ops) && key !in order
    ensures History(capacity, noTtl, order, trace, ops + [Op.Get(key)]) && Without(order, key) == order
  {
    OneMoreOp(ops, Op.Get(key), capacity);
    WithoutAbsent(order, key);
    hide RecencyLaw, NoDrops, AfterAll, Without;
  }

  lemma PutInHistory<K(!new)>(capacity: nat, noTtl: bool, order: seq<K>, trace: seq<Event<K>>, ops: seq<Op<K>>, key: K)
    requires History(capacity, noTtl, order, trace, ops) && capacity > 0 && Distinct(order) && |order| <= capacity
    ensures var order' := LastN(MoveToEnd(order, key), capacity);
            && History(capacity, noTtl, order', trace + [Access(key)], ops + [Op.Put(key)])
            && Distinct(order') && |order'| <= capacity && key in Keys(order')
  {
    OneMoreOp(ops, Op.Put(key), capacity);
    OneMoreEvent(trace, Access(key));
    AccessKeepsLaw(trace, order, key, capacity);
    hide Distinct, RecencyLaw, NoDrops, AfterAll, MoveToEnd, LastN;
  }

  class LruCache<K(==,!new), V> {
    const capacity: nat
    const ttl: Option<real>
    /** The ordered dictionary: its keys, least recently used first, and its entries. */
    var order: seq<K>
    var data: Entries<K, V>
    ghost var past: Past<K, V>

    ghost predicate Valid()
      reads this
    {
      && capacity > 0 && Shape(capacity, order, data, past.lastPut)
      && History(capacity, ttl.None?, order, past.trace, past.ops)
    }

    /** The source raises for a non-positive capacity. */
    constructor (capacity: nat, ttl: Option<real>)
      requires capacity > 0
      ensures Valid() && order == [] && past == Past([], [], map[])
      ensures this.capacity == capacity && this.ttl == ttl
    {
      this.capacity, this.ttl := capacity, ttl;
      order, data, past := [], map[], Past([], [], map[]);
    }

    predicate Expired(k: K, now: real)
      reads this
      requires k in data
    {
      ttl.Some? && now - data[k].1 > ttl.value
    }

    /** A value comes back only if it is the last one put for the key and within its time to live;
        a hit makes the key the most recent, an expired entry is dropped. */
    method Get(key: K, now: real) returns (r: Option<V>)
      requires Valid()
      modifies this
      ensures Valid()
      ensures r.Some? <==> key in old(data) && !old(Expired(key, now))
      ensures r.None? && key in old(data) ==> ttl.Some? && now - old(data)[key].1 > ttl.value
      ensures r.Some? ==>
                var puts := past.lastPut;
                key in puts && r.value == puts[key].0 && (ttl.Some? ==> now - puts[key].1 <= ttl.value)
      ensures order == if r.Some? then MoveToEnd(old(order), key) else Without(old(order), key)
      ensures var events := if r.Some? then [Access(key)] else if key in old(data) then [Drop(key)] else [];
              past == Past(old(past).trace + events, old(past).ops + [Op.Get(key)], old(past).lastPut)
    {
      assert key in data <==> key in order by {
        assert key in data <==> key in Keys(order);
      }
      ghost var trace, ops := past.trace, past.ops + [Op.Get(key)];
      hide History, MoveToEnd, Without, Distinct, Keys;
      if key !in data {
        MissInHistory(capacity, ttl.None?, order, trace, past.ops, key);
        assert trace + [] == trace;
        past := Past(trace, ops, past.lastPut);
        return None;
      }
      var (value, storedAt) := data[key];
      if ttl.Some? && now - storedAt > ttl.value {
        DropInHistory(capacity, order, trace, past.ops, key);
        order := Without(order, key);
        data := data - {key};
        past := Past(trace + [Drop(key)], ops, past.lastPut);
        return None;
      }
      HitInHistory(capacity, ttl.None?, order, trace, past.ops, key);
      order := MoveToEnd(order, key);
      past := Past(trace + [Access(key)], ops, past.lastPut);
      return Some(value);
    }

    /** Stores the value as most recent and evicts the least recent key beyond the capacity. */
    method Put(key: K, value: V, now: real)
      requires Valid()
      modifies this
      ensures Valid() && key in data && data[key] == (value, now)
      ensures order == LastN(MoveToEnd(old(order), key), capacity)
      ensures past == Past(old(past).trace + [Access(key)], old(past).ops
              + [Op.Put(key)], old(past).lastPut[key := (value, now)])
    {
      PutInHistory(capacity, ttl.None?, order, past.trace, past.ops, key);
      hide History, Distinct, Without, LastN, Keys;
      Insert(key, (value, now));
      past := Past(past.trace + [Access(key)], past.ops + [Op.Put(key)], past.lastPut[key := (value, now)]);
    }

    /** The effect of `put` on the ordered dictionary. */
    method Insert(key: K, entry: (V, real))
      requires Distinct(order) && Keys(order) == data.Keys
      modifies `order, `data
      ensures order == LastN(MoveToEnd(old(order), key), capacity) && Keys(order) == data.Keys
      ensures forall k :: k in data ==> k in old(data)[key := entry] && data[k] == old(data)[key := entry][k]
    {
      MovedKeys(order, key);
      WithoutAbsentKey(order, key);
      hide Distinct, Without, LastN, Keys;
      if key in data {
        order := Without(order, key) + [key];
      } else {
        order := order + [key];
      }
      data := data[key := entry];
      Evict();
    }

    /** The eviction loop of `put`. */
    method Evict()
      requires Distinct(order) && Keys(order) == data.Keys
      modifies `order, `data
      ensures order == LastN(old(order), capacity) && Keys(order) == data.Keys
      ensures forall k :: k in data ==> k in old(data) && data[k] == old(data[k])
    {
      hide Keys, Distinct;
      while |order| > capacity
        invariant Distinct(order) && Keys(order) == data.Keys
        invariant |order| <= |old(order)| && order == old(order)[|old(order)| - |order|..]
        invariant |order| >= capacity || order == old(order)
        invariant forall k :: k in data ==> k in old(data) && data[k] == old(data[k])
      {
        HeadDropped(order);
        data := data - {order[0]};
        order := order[1..];
      }
    }
  }
}
