/** The stack property of the LRU cache without TTL: a larger cache always contains a smaller one. */
module LruStack {
  import opened Lru

  // ---------------------------------------------------------------- restriction

  lemma {:induction false} RestrictConcat<K(!new)>(a: seq<K>, b: seq<K>, keep: set<K>)
    ensures Restrict(a + b, keep) == Restrict(a, keep) + Restrict(b, keep)
  {
    if a == [] {
      assert a + b == b;
    } else {
      assert (a + b)[1..] == a[1..] + b;
      RestrictConcat(a[1..], b, keep);
    }
  }

  lemma {:induction false} RestrictWithout<K(!new)>(l: seq<K>, k: K, keep: set<K>)
    ensures Restrict(Without(l, k), keep) == Without(Restrict(l, keep), k) == Restrict(Without(l, k), keep + {k})
    ensures k !in keep ==> Without(Restrict(l, keep), k) == Restrict(l, keep)
  {
    if l != [] {
      RestrictWithout(l[1..], k, keep);
      if l[0] != k && l[0] in keep {
        assert Restrict(l, keep)[1..] == Restrict(l[1..], keep);
        assert Without(l, k)[1..] == Without(l[1..], k);
      } else if l[0] in keep {
        assert Restrict(l, keep)[1..] == Restrict(l[1..], keep);
      } else if l[0] != k {
        assert Without(l, k)[1..] == Without(l[1..], k);
      }
    }
  }

  lemma {:induction false} RestrictAll<K(!new)>(l: seq<K>, keep: set<K>)
    requires forall k :: k in l ==> k in keep
    ensures Restrict(l, keep) == l
  {
    if l != [] {
      RestrictAll(l[1..], keep);
    }
  }

  lemma {:induction false} RestrictSame<K(!new)>(l: seq<K>, keep: set<K>, keep': set<K>)
    requires forall k :: k in l ==> (k in keep <==> k in keep')
    ensures Restrict(l, keep) == Restrict(l, keep')
  {
    if l != [] {
      RestrictSame(l[1..], keep, keep');
    }
  }

  lemma {:induction false} RestrictLess<K(!new)>(l: seq<K>, keep: set<K>, x: K)
    ensures Restrict(l, keep - {x}) == Without(Restrict(l, keep), x)
  {
    if l != [] {
      RestrictLess(l[1..], keep, x);
      if l[0] in keep {
        assert Restrict(l, keep)[1..] == Restrict(l[1..], keep);
      }
    }
  }

  lemma {:induction false} RestrictMembers<K(!new)>(l: seq<K>, keep: set<K>)
    ensures forall k :: k in Restrict(l, keep) <==> k in l && k in keep
  {
    if l != [] {
      RestrictMembers(l[1..], keep);
    }
  }

  // ---------------------------------------------------------------- inclusion

  /** The small list is the large one restricted to the small one's keys; below its capacity it is the large one. */
  ghost predicate Nested<K(!new)>(small: seq<K>, large: seq<K>, capacity: nat) {
    && Distinct(small) && Distinct(large) && |small| <= capacity
    && small == Restrict(large, Keys(small))
    && (|small| < capacity ==> small == large)
  }

  lemma NestedIsSubset<K(!new)>(small: seq<K>, large: seq<K>, capacity: nat)
    requires Nested(small, large, capacity)
    ensures Keys(small) <= Keys(large)
  {
    RestrictMembers(large, Keys(small));
  }

  /** Moving a key to the end of both lists. */
  lemma MoveBoth<K(!new)>(small: seq<K>, large: seq<K>, k: K)
    requires Distinct(small) && Distinct(large) && small == Restrict(large, Keys(small))
    ensures var s, l := MoveToEnd(small, k), MoveToEnd(large, k); s == Restrict(l, Keys(s))
  {
    MovedKeys(small, k);
    var keep := Keys(small) + {k};
    RestrictConcat(Without(large, k), [k], keep);
    RestrictWithout(large, k, Keys(small));
    assert Restrict([k], keep) == [k];
  }

  lemma GetKeepsNested<K(!new)>(small: seq<K>, large: seq<K>, k: K, capacity: nat, larger: nat)
    requires Nested(small, large, capacity)
    ensures Nested(After(small, Get(k), capacity), After(large, Get(k), larger), capacity)
  {
    NestedIsSubset(small, large, capacity);
    MovedKeys(small, k);
    MovedKeys(large, k);
    if k in small {
      assert k in Keys(small) && k in Keys(large);
      MoveBoth(small, large, k);
    } else if k in large {
      assert k !in Keys(small);
      RestrictConcat(Without(large, k), [k], Keys(small));
      RestrictWithout(large, k, Keys(small));
      assert Restrict([k], Keys(small)) == [];
    }
  }

  /** Cutting the head off the small list, and perhaps a head that it lacks off the large one. */
  lemma CutHeads<K(!new)>(small: seq<K>, large: seq<K>)
    requires Distinct(small) && Distinct(large) && small == Restrict(large, Keys(small)) && small != []
    ensures small[1..] == Restrict(large, Keys(small[1..]))
    ensures small[1..] == Restrict(large[1..], Keys(small[1..]))
  {
    HeadDropped(small);
    RestrictLess(large, Keys(small), small[0]);
    HeadOut(small);
    assert large[0] in Keys(small) ==> small[0] == large[0];
  }

  lemma HeadOut<K(!new)>(l: seq<K>)
    requires Distinct(l) && l != []
    ensures Without(l, l[0]) == l[1..]
  {
    WithoutAbsent(l[1..], l[0]);
  }

  lemma PutKeepsNested<K(!new)>(small: seq<K>, large: seq<K>, k: K, capacity: nat, larger: nat)
    requires Nested(small, large, capacity) && 0 < capacity <= larger && |large| <= larger
    ensures Nested(After(small, Put(k), capacity), After(large, Put(k), larger), capacity)
  {
    hide Restrict, MoveToEnd, Distinct;
    var s, l := MoveToEnd(small, k), MoveToEnd(large, k);
    NestedIsSubset(small, large, capacity);
    KeysMembers(small, k);
    KeysMembers(large, k);
    MovedKeys(small, k);
    MovedKeys(large, k);
    MoveBoth(small, large, k);
    CutDistinct(s, capacity);
    CutDistinct(l, larger);
    if |s| > capacity {
      CutHeads(s, l);
    }
  }

  lemma KeysMembers<K(!new)>(l: seq<K>, k: K)
    ensures k in Keys(l) <==> k in l
  {
  }

  lemma {:induction false} NestedRuns<K(!new)>(ops: seq<Op<K>>, capacity: nat, larger: nat)
    requires 0 < capacity <= larger
    ensures Nested(AfterAll(ops, capacity), AfterAll(ops, larger), capacity)
    ensures |AfterAll(ops, larger)| <= larger
    decreases |ops|
  {
    if ops != [] {
      var n := |ops| - 1;
      NestedRuns(ops[..n], capacity, larger);
      var small, large := AfterAll(ops[..n], capacity), AfterAll(ops[..n], larger);
      MovedKeys(large, ops[n].key);
      match ops[n]
      case Get(k) => GetKeepsNested(small, large, k, capacity, larger);
      case Put(k) => PutKeepsNested(small, large, k, capacity, larger);
    }
  }

  /** After every trace of gets and puts, whatever the smaller cache holds the larger one holds too. */
  lemma LargerContainsSmaller<K(!new)>(ops: seq<Op<K>>, capacity: nat, larger: nat)
    requires 0 < capacity <= larger
    ensures Keys(AfterAll(ops, capacity)) <= Keys(AfterAll(ops, larger))
  {
    NestedRuns(ops, capacity, larger);
    NestedIsSubset(AfterAll(ops, capacity), AfterAll(ops, larger), capacity);
  }

  /** Two caches without TTL that have seen the same calls. */
  lemma CachesNested<K(!new), V>(small: LruCache<K, V>, large: LruCache<K, V>)
    requires small.Valid() && large.Valid() && small.ttl.None? && large.ttl.None?
    requires small.past.ops == large.past.ops && small.capacity <= large.capacity
    ensures small.data.Keys <= large.data.Keys
  {
    LargerContainsSmaller(small.past.ops, small.capacity, large.capacity);
  }
}
