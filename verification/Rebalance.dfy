/** Measuring a ring's distribution and churn (crawler/sharding/rebalance.py). */
module Rebalance {
  import opened Ring
  import opened RingTheorems

  /** Snapshot of the owners of `keys`; keys without an owner (an empty ring) are skipped. */
  ghost predicate IsAssignment(hash: HashFn, v: nat, nodes: set<string>, keys: set<string>, m: map<string, string>) {
    && m.Keys == (if nodes == {} then {} else keys)
    && forall k :: k in m ==> Owns(hash, v, nodes, k, m[k])
  }

  function KeySet(keys: seq<string>): set<string> {
    set k | k in keys
  }

  method Assignments(ring: ConsistentHashRing, keys: seq<string>) returns (result: map<string, string>)
    requires ring.Valid()
    ensures IsAssignment(ring.hash, ring.virtualNodes, ring.nodes, KeySet(keys), result)
  {
    result := map[];
    for i := 0 to |keys|
      invariant IsAssignment(ring.hash, ring.virtualNodes, ring.nodes, KeySet(keys[..i]), result)
    {
      var r := ring.Get(keys[i]);
      if r.Owner? {
        result := result[keys[i] := r.node];
      }
      assert KeySet(keys[..i + 1]) == KeySet(keys[..i]) + {keys[i]};
    }
    assert keys[..|keys|] == keys;
  }

  /** `Counter(assignments.values())[node]`. */
  function Load(m: map<string, string>, node: string): nat {
    |set k | k in m && m[k] == node|
  }

  function Moved(before: map<string, string>, after: map<string, string>): set<string> {
    set k | k in before && (k !in after || after[k] != before[k])
  }

  function Churn(before: map<string, string>, after: map<string, string>): real {
    if |before| == 0 then 0.0 else |Moved(before, after)| as real / |before| as real
  }

  /** A node's share of the assigned keys. */
  function Share(m: map<string, string>, node: string): real {
    if |m| == 0 then 0.0 else Load(m, node) as real / |m| as real
  }

  /** Churn is the fraction of the assigned keys whose owner changed or was lost, and a share the fraction of
      the keys that a node owns. */
  lemma FractionsAre(before: map<string, string>, after: map<string, string>, node: string)
    ensures before != map[] ==>
              && Churn(before, after) * |before| as real
                 == |set k | k in before && (k !in after || after[k] != before[k])| as real
              && Share(before, node) * |before| as real == |set k | k in before && before[k] == node| as real
    ensures before == map[] ==> Churn(before, after) == Share(before, node) == 0.0
  {
    assert before != map[] ==> |before| > 0 by {
      if k :| k in before {
        assert before.Keys != {} && |before.Keys| == |before|;
      }
    }
    TimesDivided(|Moved(before, after)| as real, |before| as real);
    TimesDivided(Load(before, node) as real, |before| as real);
  }

  lemma TimesDivided(x: real, y: real)
    ensures y != 0.0 ==> x / y * y == x
  {
  }

  lemma MovedTo(before: map<string, string>, after: map<string, string>, n: string)
    requires before.Keys == after.Keys
    requires forall k :: k in before ==> (after[k] == before[k] || after[k] == n) && before[k] != n
    ensures |before| == |after| && |Moved(before, after)| == Load(after, n)
  {
    assert |before| == |before.Keys| && |after| == |after.Keys|;
    assert Moved(before, after) == set k | k in after && after[k] == n;
  }

  lemma MovedFrom(before: map<string, string>, after: map<string, string>, n: string)
    requires forall k :: k in before ==> ((k !in after || after[k] != before[k]) <==> before[k] == n)
    ensures |Moved(before, after)| == Load(before, n)
  {
    assert Moved(before, after) == set k | k in before && before[k] == n;
  }

  lemma AllOnOne(m: map<string, string>, n: string)
    requires m != map[] && forall k :: k in m ==> m[k] == n
    ensures Share(m, n) == 1.0
  {
    assert |m| == |m.Keys|;
    assert m.Keys == set k | k in m && m[k] == n;
  }

  lemma OwnsMember(hash: HashFn, v: nat, nodes: set<string>, key: string, node: string)
    requires Owns(hash, v, nodes, key, node)
    ensures node in nodes
  {
  }

  /** Adding a new node moves exactly the keys that end up on it, except that the first node of a ring
      takes over keys that had no owner, which `churn` does not count. */
  lemma AddChurnIsShare(hash: HashFn, v: nat, nodes: set<string>, n: string, keys: set<string>,
                        before: map<string, string>, after: map<string, string>)
    requires CollisionFree(hash, v, nodes + {n}) && n !in nodes
    requires IsAssignment(hash, v, nodes, keys, before) && IsAssignment(hash, v, nodes + {n}, keys, after)
    ensures Churn(before, after) == Share(after, n) <==> nodes != {} || keys == {}
  {
    hide CollisionFree, Owns, Moved, Load;
    if nodes != {} {
      forall k | k in before
        ensures (after[k] == before[k] || after[k] == n) && before[k] != n
      {
        AddMovesToNewcomer(hash, v, nodes, n, k, before[k], after[k]);
        OwnsMember(hash, v, nodes, k, before[k]);
      }
      MovedTo(before, after, n);
    } else if keys != {} {
      forall k | k in after
        ensures after[k] == n
      {
        OwnsMember(hash, v, nodes + {n}, k, after[k]);
      }
      AllOnOne(after, n);
    } else {
      assert before == map[] && after == map[];
    }
  }

  /** Removing a node moves exactly the keys it owned, even when it was the last one. */
  lemma RemoveChurnIsShare(hash: HashFn, v: nat, nodes: set<string>, n: string, keys: set<string>,
                           before: map<string, string>, after: map<string, string>)
    requires CollisionFree(hash, v, nodes) && n in nodes
    requires IsAssignment(hash, v, nodes, keys, before) && IsAssignment(hash, v, nodes - {n}, keys, after)
    ensures Churn(before, after) == Share(before, n)
  {
    hide CollisionFree, Owns, Moved, Load;
    forall k | k in before
      ensures (k !in after || after[k] != before[k]) <==> before[k] == n
    {
      OwnsMember(hash, v, nodes, k, before[k]);
      if k in after {
        RemoveMovesOwnKeysOnly(hash, v, nodes, n, k, before[k], after[k]);
      } else {
        assert before[k] !in nodes - {n};
      }
    }
    MovedFrom(before, after, n);
  }
}
