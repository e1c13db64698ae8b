/** The adaptive recrawl scheduler (crawler/scheduler/recrawl.py) on a binary min-heap. */
module Recrawl {
  import opened Reals
  import opened Wrappers

  datatype Entry = Entry(dueAt: real, url: string, interval: real, depth: int, crawlId: Option<int>)

  // ---------------------------------------------------------------- the heap

  function Parent(i: nat): nat
    requires i > 0
  {
    (i - 1) / 2
  }

  ghost predicate IsHeap(s: seq<Entry>) {
    forall i: nat :: 0 < i < |s| ==> s[Parent(i)].dueAt <= s[i].dueAt
  }

  lemma {:induction false} RootIsLeast(s: seq<Entry>, i: nat)
    requires IsHeap(s) && i < |s|
    ensures s[0].dueAt <= s[i].dueAt
  {
    if i > 0 {
      RootIsLeast(s, Parent(i));
    }
  }

  function Swap(s: seq<Entry>, i: nat, j: nat): (r: seq<Entry>)
    requires i < |s| && j < |s|
    ensures |r| == |s| && multiset(r) == multiset(s)
  {
    s[i := s[j]][j := s[i]]
  }

  /** A heap but for the entry at `pos`, which may be too small for its place. */
  ghost predicate Rising(s: seq<Entry>, pos: nat) {
    && (forall i: nat :: 0 < i < |s| && i != pos ==> s[Parent(i)].dueAt <= s[i].dueAt)
    && (forall i: nat :: 0 < i < |s| && pos > 0 && Parent(i) == pos ==> s[Parent(pos)].dueAt <= s[i].dueAt)
  }

  /** A heap but for the entry at `pos`, which may be too large for its place. */
  ghost predicate Sinking(s: seq<Entry>, pos: nat) {
    && (forall i: nat :: 0 < i < |s| && Parent(i) != pos ==> s[Parent(i)].dueAt <= s[i].dueAt)
    && (forall i: nat :: 0 < i < |s| && pos > 0 && Parent(i) == pos ==> s[Parent(pos)].dueAt <= s[i].dueAt)
  }

  lemma RisingStep(s: seq<Entry>, pos: nat)
    requires 0 < pos < |s| && Rising(s, pos) && s[pos].dueAt < s[Parent(pos)].dueAt
    ensures Rising(Swap(s, pos, Parent(pos)), Parent(pos))
  {
    var up := Parent(pos);
    var t := Swap(s, pos, up);
    forall i: nat | 0 < i < |t|
      ensures i != up ==> t[Parent(i)].dueAt <= t[i].dueAt
      ensures up > 0 && Parent(i) == up ==> t[Parent(up)].dueAt <= t[i].dueAt
    {
      assert s[Parent(i)].dueAt <= s[i].dueAt || i == pos;
      if up > 0 {
        assert s[Parent(up)].dueAt <= s[up].dueAt;
      }
    }
  }

  method SiftUp(heap: seq<Entry>, start: nat) returns (s: seq<Entry>)
    requires start < |heap| && Rising(heap, start)
    ensures IsHeap(s) && multiset(s) == multiset(heap) && |s| == |heap|
  {
    s := heap;
    var pos: nat := start;
    while pos > 0 && s[pos].dueAt < s[Parent(pos)].dueAt
      invariant pos < |s| == |heap| && Rising(s, pos) && multiset(s) == multiset(heap)
    {
      hide Rising, Swap;
      RisingStep(s, pos);
      s := Swap(s, pos, Parent(pos));
      pos := Parent(pos);
    }
  }

  /** The child to swap with: the smaller one. */
  function SmallerChild(s: seq<Entry>, pos: nat): (child: nat)
    requires 2 * pos + 1 < |s|
    ensures pos < child < |s| && Parent(child) == pos
    ensures forall i: nat :: 0 < i < |s| && Parent(i) == pos ==> s[child].dueAt <= s[i].dueAt
  {
    var l, r := 2 * pos + 1, 2 * pos + 2;
    assert forall i: nat :: i > 0 && Parent(i) == pos ==> i == l || i == r;
    if r < |s| && s[r].dueAt < s[l].dueAt then r else l
  }

  lemma SinkingStep(s: seq<Entry>, pos: nat)
    requires 2 * pos + 1 < |s| && Sinking(s, pos) && s[SmallerChild(s, pos)].dueAt < s[pos].dueAt
    ensures Sinking(Swap(s, pos, SmallerChild(s, pos)), SmallerChild(s, pos))
  {
    var child := SmallerChild(s, pos);
    var t := Swap(s, pos, child);
    hide SmallerChild;
    forall i: nat | 0 < i < |t|
      ensures Parent(i) != child ==> t[Parent(i)].dueAt <= t[i].dueAt
      ensures Parent(i) == child ==> t[Parent(child)].dueAt <= t[i].dueAt
    {
      if Parent(i) == pos {
        assert s[child].dueAt <= s[i].dueAt;
      } else {
        assert s[Parent(i)].dueAt <= s[i].dueAt;
      }
      if pos > 0 {
        assert s[Parent(pos)].dueAt <= s[child].dueAt;
      }
    }
  }

  method SiftDown(heap: seq<Entry>) returns (s: seq<Entry>)
    requires Sinking(heap, 0)
    ensures IsHeap(s) && multiset(s) == multiset(heap) && |s| == |heap|
  {
    s := heap;
    var pos: nat := 0;
    while 2 * pos + 1 < |s| && s[SmallerChild(s, pos)].dueAt < s[pos].dueAt
      invariant |s| == |heap| && Sinking(s, pos) && multiset(s) == multiset(heap)
      decreases |s| - pos
    {
      hide Sinking, Swap, SmallerChild;
      SinkingStep(s, pos);
      var child := SmallerChild(s, pos);
      s := Swap(s, pos, child);
      pos := child;
    }
  }

  method HeapPush(heap: seq<Entry>, e: Entry) returns (s: seq<Entry>)
    requires IsHeap(heap)
    ensures IsHeap(s) && multiset(s) == multiset(heap) + multiset{e}
  {
    s := SiftUp(heap + [e], |heap|);
  }

  method HeapPop(heap: seq<Entry>) returns (least: Entry, s: seq<Entry>)
    requires IsHeap(heap) && heap != []
    ensures least == heap[0] && IsHeap(s) && multiset(heap) == multiset(s) + multiset{least}
    ensures |s| == |heap| - 1
  {
    least := heap[0];
    var n := |heap| - 1;
    var last := heap[n];
    s := heap[..n];
    assert heap == s + [last];
    if s != [] {
      ghost var before := s;
      s := s[0 := last];
      assert multiset(s) == multiset(before) - multiset{least} + multiset{last};
      s := SiftDown(s);
    }
  }

  // ---------------------------------------------------------------- the scheduler

  ghost predicate DueOrder(s: seq<Entry>) {
    forall i, j :: 0 <= i < j < |s| ==> s[i].dueAt <= s[j].dueAt
  }

  class RecrawlScheduler {
    var heap: seq<Entry>

    ghost predicate Valid()
      reads this
    {
      IsHeap(heap)
    }

    constructor ()
      ensures Valid() && heap == []
    {
      heap := [];
    }

    /** The clock reading is a parameter. */
    method Schedule(url: string, interval: real, depth: int, crawlId: Option<int>, now: real) returns (e: Entry)
      requires Valid()
      modifies this
      ensures Valid() && e == Entry(now + interval, url, interval, depth, crawlId)
      ensures multiset(heap) == old(multiset(heap)) + multiset{e}
    {
      e := Entry(now + interval, url, interval, depth, crawlId);
      heap := HeapPush(heap, e);
    }

    /** Takes out exactly the entries that are due, soonest first, and keeps the others. */
    method PopDue(now: real) returns (due: seq<Entry>)
      requires Valid()
      modifies this
      ensures Valid() && DueOrder(due)
      ensures forall e :: multiset(due)[e] == if e.dueAt <= now then old(multiset(heap))[e] else 0
      ensures forall e :: multiset(heap)[e] == if e.dueAt <= now then 0 else old(multiset(heap))[e]
    {
      due := [];
      while heap != [] && heap[0].dueAt <= now
        invariant Valid() && DueOrder(due)
        invariant multiset(due) + multiset(heap) == old(multiset(heap))
        invariant forall e :: e in due ==> e.dueAt <= now
        invariant forall d, e :: d in due && e in heap ==> d.dueAt <= e.dueAt
        decreases |heap|
      {
        ghost var before := heap;
        var head, rest := HeapPop(heap);
        heap := rest;
        due := due + [head];
        forall e | e in heap
          ensures head.dueAt <= e.dueAt && e in before
        {
          assert e in multiset(heap);
          assert e in multiset(before);
          var i :| 0 <= i < |before| && before[i] == e;
          RootIsLeast(before, i);
        }
      }
      forall e
        ensures e in multiset(due) ==> e.dueAt <= now
        ensures e in multiset(heap) ==> e.dueAt > now
      {
        if e in multiset(heap) {
          var i :| 0 <= i < |heap| && heap[i] == e;
          RootIsLeast(heap, i);
        }
      }
    }

    /** The time until some entry is due and before which none is. */
    method SecondsUntilNext(now: real) returns (r: Option<real>)
      requires Valid()
      ensures r.None? <==> heap == []
      ensures r.Some? ==> r.value >= 0.0 && (exists e :: e in heap && e.dueAt <= now + r.value)
      ensures r.Some? && r.value > 0.0 ==> forall e :: e in heap ==> e.dueAt >= now + r.value
    {
      if heap == [] {
        return None;
      }
      var gap := heap[0].dueAt - now;
      r := Some(if gap > 0.0 then gap else 0.0);
      assert heap[0] in heap;
      forall e | e in heap
        ensures heap[0].dueAt <= e.dueAt
      {
        var i :| 0 <= i < |heap| && heap[i] == e;
        RootIsLeast(heap, i);
      }
    }
  }

  // ---------------------------------------------------------------- the interval policy

  datatype Policy = Policy(minInterval: real, maxInterval: real, factor: real)

  function Min(x: real, y: real): real {
    if x <= y then x else y
  }

  function NextInterval(current: Option<real>, changed: bool, p: Policy): real {
    if changed || current.None? then p.minInterval
    else Min(current.value * p.factor, p.maxInterval)
  }

  /** A changed page and a first crawl get the minimum, whatever the interval was; an unchanged page waits
      longer by the factor, but no longer than the maximum. */
  lemma NextIntervalIs(current: real, changed: bool, p: Policy)
    ensures NextInterval(Some(current), true, p) == NextInterval(None, changed, p) == p.minInterval
    ensures var next := NextInterval(Some(current), false, p);
            && next <= current * p.factor && next <= p.maxInterval
            && (next == current * p.factor || next == p.maxInterval)
  {
  }

  /** The interval after a reset and `k` unchanged crawls. */
  function IntervalAfter(k: nat, p: Policy): real {
    if k == 0 then NextInterval(None, true, p) else NextInterval(Some(IntervalAfter(k - 1, p)), false, p)
  }

  function Power(x: real, k: nat): real {
    if k == 0 then 1.0 else Power(x, k - 1) * x
  }

  lemma PowerGrows(x: real, k: nat)
    ensures Power(x, 0) == 1.0 && Power(x, 1) == x && Power(x, k + 1) == x * Power(x, k)
  {
  }

  lemma {:induction false} PowerBelowOne(x: real, k: nat)
    requires 0.0 <= x <= 1.0
    ensures 0.0 <= Power(x, k) <= 1.0
  {
    if k > 0 {
      PowerBelowOne(x, k - 1);
      ProductInUnit(Power(x, k - 1), x);
    }
  }

  lemma ProductInUnit(a: real, b: real)
    requires 0.0 <= a <= 1.0 && 0.0 <= b <= 1.0
    ensures 0.0 <= a * b <= 1.0
  {
    ProductNonNegative(a, b);
    ProductNonNegative(1.0 - a, b);
    assert (1.0 - a) * b == b - a * b;
  }

  /** Capping once and growing again gives the same as growing first, because a capped interval had grown. */
  lemma CapCommutes(first: real, power: real, factor: real, cap: real)
    requires 0.0 <= first <= cap && factor >= 0.0 && (factor <= 1.0 ==> power <= 1.0)
    ensures Min(Min(cap, first * power) * factor, cap) == Min(cap, first * power * factor)
  {
    if factor <= 1.0 {
      ProductMonotone(power, 1.0, first);
      assert power * first == first * power && 1.0 * first == first;
    } else if first * power > cap {
      ProductMonotone(1.0, factor, cap);
      ProductMonotone(cap, first * power, factor);
      assert 1.0 * cap == cap && factor * cap == cap * factor;
    }
  }

  lemma Associate(a: real, b: real, c: real)
    ensures a * b * c == a * (b * c)
  {
  }

  /** The closed form: geometric growth from the minimum, capped at the maximum. */
  function Geometric(k: nat, p: Policy): real {
    Capped(Power(p.factor, k), p)
  }

  function Capped(power: real, p: Policy): real {
    Min(p.maxInterval, p.minInterval * power)
  }

  lemma GeometricStep(k: nat, p: Policy)
    requires 0.0 <= p.minInterval <= p.maxInterval && p.factor >= 0.0
    ensures NextInterval(Some(Geometric(k, p)), false, p) == Geometric(k + 1, p)
  {
    if p.factor <= 1.0 {
      PowerBelowOne(p.factor, k);
    }
    hide Capped, NextInterval;
    BackoffStep(Power(p.factor, k), p);
  }

  lemma BackoffStep(power: real, p: Policy)
    requires 0.0 <= p.minInterval <= p.maxInterval && p.factor >= 0.0 && (p.factor <= 1.0 ==> power <= 1.0)
    ensures NextInterval(Some(Capped(power, p)), false, p) == Capped(power * p.factor, p)
  {
    CapCommutes(p.minInterval, power, p.factor, p.maxInterval);
    Associate(p.minInterval, power, p.factor);
    hide Min;
  }

  lemma {:induction false} GeometricBackoff(k: nat, p: Policy)
    requires 0.0 <= p.minInterval <= p.maxInterval && p.factor >= 0.0
    ensures IntervalAfter(k, p) == Geometric(k, p)
  {
    if k == 0 {
      assert p.minInterval * 1.0 == p.minInterval;
    } else {
      hide NextInterval, Geometric;
      GeometricBackoff(k - 1, p);
      GeometricStep(k - 1, p);
    }
  }

  ghost predicate BacksOffGeometrically(p: Policy) {
    forall k: nat :: IntervalAfter(k, p) == Geometric(k, p)
  }

  /** The geometric law with its cap holds exactly for settings whose minimum does not exceed the
      maximum: a reset does not apply the cap. */
  lemma BacksOffIff(p: Policy)
    requires p.minInterval >= 0.0 && p.factor >= 0.0
    ensures BacksOffGeometrically(p) <==> p.minInterval <= p.maxInterval
  {
    if p.minInterval <= p.maxInterval {
      forall k: nat
        ensures IntervalAfter(k, p) == Geometric(k, p)
      {
        GeometricBackoff(k, p);
      }
    } else {
      assert p.minInterval * 1.0 == p.minInterval;
      assert IntervalAfter(0, p) != Geometric(0, p);
    }
  }
}
