/** What the ring is for: history independence and minimal movement of keys. */
module RingTheorems {
  import opened Ring

  lemma CollisionFreeIsUnshared(hash: HashFn, v: nat, nodes: set<string>, node: string)
    requires CollisionFree(hash, v, nodes) && node in nodes
    ensures Unshared(hash, v, nodes, node)
  {
    forall i: nat | i < v
      ensures |Sitting(hash, v, nodes, Point(hash, node, i))| == 1
    {
      assert Sitting(hash, v, nodes, Point(hash, node, i)) == {(node, i as int)};
    }
  }

  lemma OwnersAgree(hash: HashFn, v: nat, nodes: set<string>, h: Hash, a: string, b: string)
    requires CollisionFree(hash, v, nodes) && OwnedBy(hash, v, nodes, h, a) && OwnedBy(hash, v, nodes, h, b)
    ensures a == b
  {
  }

  /** Whatever adds and removals led to them, two rings with the same nodes list the same hashes, and
      when no points collide they are the same ring. */
  lemma HistoryIndependent(a: ConsistentHashRing, b: ConsistentHashRing)
    requires a.Valid() && b.Valid()
    requires a.hash == b.hash && a.virtualNodes == b.virtualNodes && a.nodes == b.nodes
    ensures a.sortedHashes == b.sortedHashes
    ensures CollisionFree(a.hash, a.virtualNodes, a.nodes) ==> a.ring == b.ring
  {
    assert multiset(a.sortedHashes) == multiset(b.sortedHashes);
    OneSortedList(a.sortedHashes, b.sortedHashes);
    if CollisionFree(a.hash, a.virtualNodes, a.nodes) {
      forall h | h in a.ring
        ensures a.ring[h] == b.ring[h]
      {
        OwnersAgree(a.hash, a.virtualNodes, a.nodes, h, a.ring[h], b.ring[h]);
      }
    }
  }

  /** Without collisions the list is strictly sorted: each point once. */
  lemma StrictList(r: ConsistentHashRing)
    requires r.Valid() && CollisionFree(r.hash, r.virtualNodes, r.nodes)
    ensures forall i, j :: 0 <= i < j < |r.sortedHashes| ==> r.sortedHashes[i] < r.sortedHashes[j]
    ensures Elements(r.sortedHashes) == Points(r.hash, r.virtualNodes, r.nodes)
  {
    RingListed(r.hash, r.virtualNodes, r.nodes, r.ring, r.sortedHashes);
    var s := r.sortedHashes;
    forall i, j | 0 <= i < j < |s|
      ensures s[i] < s[j]
    {
      if s[i] == s[j] {
        TwiceListed(s, i, j);
        var n, k :| n in r.nodes && 0 <= k < r.virtualNodes && Point(r.hash, n, k) == s[i];
        CollisionFreeIsUnshared(r.hash, r.virtualNodes, r.nodes, n);
      }
    }
  }

  lemma TwiceListed(s: seq<Hash>, i: nat, j: nat)
    requires i < j < |s| && s[i] == s[j]
    ensures multiset(s)[s[i]] >= 2
  {
    assert s == s[..i] + [s[i]] + s[i + 1..j] + [s[j]] + s[j + 1..];
  }

  // ---------------------------------------------------------------- minimal movement

  /** Adding a node leaves a key where it was or moves it to the new node. */
  lemma AddMovesToNewcomer(hash: HashFn, v: nat, nodes: set<string>, n: string, key: string, before: string,
                           after: string)
    requires CollisionFree(hash, v, nodes + {n})
    requires Owns(hash, v, nodes, key, before) && Owns(hash, v, nodes + {n}, key, after)
    ensures after == before || after == n
  {
  }

  /** Removing a node moves only the keys it owned. */
  lemma RemoveMovesOwnKeysOnly(hash: HashFn, v: nat, nodes: set<string>, n: string, key: string, before: string,
                               after: string)
    requires CollisionFree(hash, v, nodes)
    requires Owns(hash, v, nodes, key, before) && Owns(hash, v, nodes - {n}, key, after)
    ensures before != n ==> after == before
    ensures after != n
  {
  }

  lemma OwnerUnique(hash: HashFn, v: nat, nodes: set<string>, key: string, a: string, b: string)
    requires CollisionFree(hash, v, nodes) && Owns(hash, v, nodes, key, a) && Owns(hash, v, nodes, key, b)
    ensures a == b
  {
  }
}
