/** The consistent-hash ring with virtual nodes (crawler/sharding/consistent_hash.py). */
module Ring {

  /** MurmurHash3 x86 32-bit, unsigned. The function itself is a parameter. */
  type Hash = h: int | 0 <= h < 0x1_0000_0000
  type HashFn = string -> Hash

  function Decimal(n: nat): string {
    var digit := ['0' + (n % 10) as char];
    if n < 10 then digit else Decimal(n / 10) + digit
  }

  /** The number that a string of digits stands for. */
  function Numeral(s: string): int {
    if s == [] then 0 else 10 * Numeral(s[..|s| - 1]) + (s[|s| - 1] as int - '0' as int)
  }

  predicate AllDigits(s: string) {
    forall k :: 0 <= k < |s| ==> '0' <= s[k] <= '9'
  }

  /** `str(n)`: digits without a leading zero that stand for `n`. */
  lemma {:induction false} DecimalIsNumeral(n: nat)
    ensures Decimal(n) != [] && AllDigits(Decimal(n)) && Numeral(Decimal(n)) == n
    ensures |Decimal(n)| > 1 ==> Decimal(n)[0] != '0'
  {
    if n >= 10 {
      DecimalIsNumeral(n / 10);
      assert Decimal(n)[..|Decimal(n)| - 1] == Decimal(n / 10);
      assert n / 10 < 10 ==> Decimal(n / 10) == ['0' + (n / 10) as char];
    } else {
      assert Decimal(n)[..0] == [];
    }
  }

  /** No two virtual nodes, of whatever nodes, are hashed under one name. */
  lemma NamesDiffer(node: string, i: nat, node': string, j: nat)
    requires node + "#" + Decimal(i) == node' + "#" + Decimal(j)
    ensures node == node' && i == j
  {
    DecimalIsNumeral(i);
    DecimalIsNumeral(j);
    LastHashSplits(node, Decimal(i), node', Decimal(j));
  }

  lemma LastHashSplits(a: string, b: string, x: string, y: string)
    requires a + "#" + b == x + "#" + y && AllDigits(b) && AllDigits(y)
    ensures a == x && b == y
  {
    var name := a + "#" + b;
    assert name[|a|] == '#' && name[|x|] == '#';
    forall k | |a| < k < |name|
      ensures name[k] != '#'
    {
      assert name[k] == b[k - |a| - 1];
    }
    forall k | |x| < k < |name|
      ensures name[k] != '#'
    {
      assert name[k] == y[k - |x| - 1];
    }
    assert a == name[..|a|] && x == name[..|x|];
    assert b == name[|a| + 1..] && y == name[|x| + 1..];
  }

  /** The ring point of virtual node `i` of `node`. */
  function Point(hash: HashFn, node: string, i: nat): Hash {
    hash(node + "#" + Decimal(i))
  }

  function Points(hash: HashFn, v: nat, nodes: set<string>): set<Hash> {
    set node, i | node in nodes && 0 <= i < v :: Point(hash, node, i)
  }

  /** No two virtual nodes of these nodes share a ring point. */
  ghost predicate CollisionFree(hash: HashFn, v: nat, nodes: set<string>) {
    forall n, n', i: nat, j: nat ::
      n in nodes && n' in nodes && i < v && j < v && Point(hash, n, i) == Point(hash, n', j) ==> n == n' && i == j
  }

  function Names(v: nat, nodes: set<string>): set<string> {
    set node, i | node in nodes && 0 <= i < v :: node + "#" + Decimal(i)
  }

  /** Different strings can be given different hashes as long as there are enough of them. */
  lemma {:induction false} Numbering(names: set<string>) returns (m: map<string, int>)
    ensures m.Keys == names && (forall s :: s in names ==> 0 <= m[s] < |names|)
    ensures forall s, t :: s in names && t in names && m[s] == m[t] ==> s == t
  {
    if names == {} {
      m := map[];
    } else {
      var s :| s in names;
      m := Numbering(names - {s});
      m := m[s := |names| - 1];
    }
  }

  lemma {:induction false} FewNames(v: nat, nodes: set<string>)
    ensures |Names(v, nodes)| <= v * |nodes|
  {
    if nodes == {} {
      assert Names(v, nodes) == {};
    } else {
      var node :| node in nodes;
      FewNames(v, nodes - {node});
      FewNamesOf(v, node);
      NamesSplit(v, nodes, node);
      OneNodeMore(v, |nodes - {node}|);
      assert |nodes| == |nodes - {node}| + 1;
      hide *;
    }
  }

  lemma OneNodeMore(v: nat, n: nat)
    ensures v * (n + 1) == v * n + v
  {
  }

  lemma NamesSplit(v: nat, nodes: set<string>, node: string)
    requires node in nodes
    ensures Names(v, nodes) == Names(v, nodes - {node}) + Names(v, {node})
  {
    hide Decimal;
    var all, rest, own := Names(v, nodes), Names(v, nodes - {node}), Names(v, {node});
    forall name
      ensures name in all <==> name in rest + own
    {
      if name in all {
        var n, i :| n in nodes && 0 <= i < v && name == n + "#" + Decimal(i);
        assert n == node ==> name in own;
        assert n != node ==> n in nodes - {node};
      }
    }
  }

  lemma {:induction false} FewNamesOf(v: nat, node: string)
    ensures |Names(v, {node})| <= v
  {
    if v == 0 {
      assert Names(v, {node}) == {};
    } else {
      FewNamesOf(v - 1, node);
      assert Names(v, {node}) == Names(v - 1, {node}) + {node + "#" + Decimal(v - 1)};
    }
  }

  /** Freedom from collisions asks nothing impossible: any nodes whose virtual nodes are at most as many as
      there are hashes have it under some hash. */
  lemma SomeHashIsCollisionFree(v: nat, nodes: set<string>) returns (hash: HashFn)
    requires v * |nodes| <= 0x1_0000_0000
    ensures CollisionFree(hash, v, nodes)
  {
    var names := Names(v, nodes);
    FewNames(v, nodes);
    var m := Numbering(names);
    hash := s => if s in names then m[s] else 0;
    forall n, n', i: nat, j: nat |
      n in nodes && n' in nodes && i < v && j < v && Point(hash, n, i) == Point(hash, n', j)
      ensures n == n' && i == j
    {
      assert n + "#" + Decimal(i) in names && n' + "#" + Decimal(j) in names;
      NamesDiffer(n, i, n', j);
    }
  }

  // ---------------------------------------------------------------- sorted lists

  ghost predicate Sorted(s: seq<Hash>) {
    forall i, j :: 0 <= i < j < |s| ==> s[i] <= s[j]
  }

  /** `bisect.bisect_right`: the number of entries that are at most `x`. */
  function BisectRight(s: seq<Hash>, x: Hash): (k: nat)
    requires Sorted(s)
    ensures k <= |s|
    ensures forall i :: 0 <= i < k ==> s[i] <= x
    ensures forall i :: k <= i < |s| ==> x < s[i]
  {
    if s == [] || s[|s| - 1] <= x then |s| else BisectRight(s[..|s| - 1], x)
  }

  /** `bisect.bisect_left`: the number of entries that are less than `x`. */
  function BisectLeft(s: seq<Hash>, x: Hash): (k: nat)
    requires Sorted(s)
    ensures k <= |s|
    ensures forall i :: 0 <= i < k ==> s[i] < x
    ensures forall i :: k <= i < |s| ==> x <= s[i]
  {
    if s == [] || s[|s| - 1] < x then |s| else BisectLeft(s[..|s| - 1], x)
  }

  function Elements(s: seq<Hash>): set<Hash> {
    set h | h in s
  }

  /** A bag of hashes has only one sorted list. */
  lemma {:induction false} OneSortedList(a: seq<Hash>, b: seq<Hash>)
    requires Sorted(a) && Sorted(b) && multiset(a) == multiset(b)
    ensures a == b
    decreases |a|
  {
    hide Sorted;
    NonEmptyBag(a);
    NonEmptyBag(b);
    if a != [] {
      SameFirst(a, b);
      TailSorted(a);
      TailSorted(b);
      OneSortedList(a[1..], b[1..]);
    }
  }

  lemma SameFirst(a: seq<Hash>, b: seq<Hash>)
    requires Sorted(a) && Sorted(b) && multiset(a) == multiset(b) && a != [] && b != []
    ensures a[0] == b[0]
  {
    NonEmptyBag(a);
    NonEmptyBag(b);
    LeastFirst(a, b[0]);
    LeastFirst(b, a[0]);
  }

  lemma NonEmptyBag(s: seq<Hash>)
    ensures s == [] <==> multiset(s) == multiset{}
    ensures s != [] ==> s[0] in multiset(s)
  {
  }

  lemma LeastFirst(s: seq<Hash>, x: Hash)
    requires Sorted(s) && x in multiset(s)
    ensures s[0] <= x
  {
  }

  lemma TailSorted(s: seq<Hash>)
    requires Sorted(s) && s != []
    ensures Sorted(s[1..]) && multiset(s[1..]) == multiset(s) - multiset{s[0]} && s == [s[0]] + s[1..]
  {
    assert s == [s[0]] + s[1..];
  }

  // ---------------------------------------------------------------- the reference: walking clockwise

  /** Steps from `h` clockwise to `p`; `get` looks for points strictly after `h`, so `h` itself comes last. */
  function Clockwise(h: Hash, p: Hash): Hash {
    if h < p then p - h - 1 else p - h - 1 + 0x1_0000_0000
  }

  ghost predicate IsNext(points: set<Hash>, h: Hash, p: Hash) {
    p in points && forall q :: q in points ==> Clockwise(h, p) <= Clockwise(h, q)
  }

  /** The least entry strictly greater than `h`, or the least of all if there is none. */
  ghost predicate FirstAfter(s: seq<Hash>, h: Hash, p: Hash) {
    if exists q :: q in s && h < q then h < p && forall q :: q in s && h < q ==> p <= q
    else forall q :: q in s ==> p <= q
  }

  lemma NextUnique(points: set<Hash>, h: Hash, p: Hash, q: Hash)
    requires IsNext(points, h, p) && IsNext(points, h, q)
    ensures p == q
  {
  }

  /** The first entry after `h`, wrapping round, is the next point clockwise. */
  lemma BisectFindsNext(s: seq<Hash>, h: Hash)
    requires Sorted(s) && s != []
    ensures var k := BisectRight(s, h); IsNext(Elements(s), h, s[if k == |s| then 0 else k])
  {
  }

  // ---------------------------------------------------------------- inserting and deleting

  /** `bisect.insort`. */
  function Insort(s: seq<Hash>, h: Hash): seq<Hash>
    requires Sorted(s)
  {
    var k := BisectRight(s, h);
    s[..k] + [h] + s[k..]
  }

  lemma InsortAdds(s: seq<Hash>, h: Hash)
    requires Sorted(s)
    ensures Sorted(Insort(s, h)) && multiset(Insort(s, h)) == multiset(s) + multiset{h}
  {
    var k := BisectRight(s, h);
    assert s == s[..k] + s[k..];
  }

  /** The bisect-and-pop of `remove_node`. */
  function Discard(s: seq<Hash>, h: Hash): seq<Hash>
    requires Sorted(s)
  {
    var k := BisectLeft(s, h);
    if k < |s| && s[k] == h then s[..k] + s[k + 1..] else s
  }

  lemma CutSorted(s: seq<Hash>, k: nat)
    requires k < |s| && Sorted(s)
    ensures Sorted(s[..k] + s[k + 1..])
  {
  }

  lemma CutOut(s: seq<Hash>, k: nat)
    requires k < |s|
    ensures multiset(s[..k] + s[k + 1..]) == multiset(s) - multiset{s[k]}
  {
    assert s == s[..k] + [s[k]] + s[k + 1..];
  }

  lemma NotListed(s: seq<Hash>, h: Hash)
    requires Sorted(s)
    ensures var k := BisectLeft(s, h); k == |s| || s[k] != h ==> h !in s
  {
  }

  lemma DiscardRemoves(s: seq<Hash>, h: Hash)
    requires Sorted(s)
    ensures Sorted(Discard(s, h)) && multiset(Discard(s, h)) == multiset(s) - multiset{h}
  {
    hide Sorted, BisectLeft;
    NotListed(s, h);
    var k := BisectLeft(s, h);
    if k < |s| && s[k] == h {
      CutSorted(s, k);
      CutOut(s, k);
    } else {
      assert h !in multiset(s);
    }
  }

  // ---------------------------------------------------------------- virtual nodes

  /** The virtual nodes that sit on ring point `h`. */
  function Sitting(hash: HashFn, v: nat, nodes: set<string>, h: Hash): set<(string, int)> {
    set node, i | node in nodes && 0 <= i < v && Point(hash, node, i) == h :: (node, i)
  }

  /** Those of one node among its first `k` virtual nodes. */
  function SittingOf(hash: HashFn, node: string, k: nat, h: Hash): set<(string, int)> {
    set i | 0 <= i < k && Point(hash, node, i) == h :: (node, i)
  }

  function PointsOf(hash: HashFn, node: string, k: nat): set<Hash> {
    set i | 0 <= i < k :: Point(hash, node, i)
  }

  lemma PointsGrow(hash: HashFn, node: string, k: nat)
    ensures PointsOf(hash, node, k + 1) == PointsOf(hash, node, k) + {Point(hash, node, k)}
  {
  }

  lemma SittingGrows(hash: HashFn, node: string, k: nat, h: Hash)
    ensures |SittingOf(hash, node, k + 1, h)|
         == |SittingOf(hash, node, k, h)| + (if Point(hash, node, k) == h then 1 else 0)
  {
    if Point(hash, node, k) == h {
      assert SittingOf(hash, node, k + 1, h) == SittingOf(hash, node, k, h) + {(node, k as int)};
    } else {
      assert SittingOf(hash, node, k + 1, h) == SittingOf(hash, node, k, h);
    }
  }

  lemma SittingSplits(hash: HashFn, v: nat, nodes: set<string>, node: string, h: Hash)
    requires node !in nodes
    ensures |Sitting(hash, v, nodes + {node}, h)| == |Sitting(hash, v, nodes, h)| + |SittingOf(hash, node, v, h)|
  {
    assert Sitting(hash, v, nodes + {node}, h) == Sitting(hash, v, nodes, h) + SittingOf(hash, node, v, h);
    assert Sitting(hash, v, nodes, h) !! SittingOf(hash, node, v, h);
  }

  lemma PointsSplit(hash: HashFn, v: nat, nodes: set<string>, node: string)
    ensures Points(hash, v, nodes + {node}) == Points(hash, v, nodes) + PointsOf(hash, node, v)
  {
  }

  // ---------------------------------------------------------------- the ring

  ghost predicate OwnedBy(hash: HashFn, v: nat, nodes: set<string>, h: Hash, node: string) {
    node in nodes && exists i: nat :: i < v && Point(hash, node, i) == h
  }

  /** `node` owns a point that is the next one clockwise from the key. */
  ghost predicate Owns(hash: HashFn, v: nat, nodes: set<string>, key: string, node: string) {
    exists p :: IsNext(Points(hash, v, nodes), hash(key), p) && OwnedBy(hash, v, nodes, p, node)
  }

  /** No virtual node of `node` shares its point with another virtual node. */
  ghost predicate Unshared(hash: HashFn, v: nat, nodes: set<string>, node: string) {
    forall i: nat :: i < v ==> |Sitting(hash, v, nodes, Point(hash, node, i))| == 1
  }

  /** The ring and the list while `add_node` has placed the first `i` virtual nodes of `node`. */
  ghost predicate Adding(hash: HashFn, v: nat, nodes: set<string>, node: string, i: nat,
                         ring0: map<Hash, string>, sorted0: seq<Hash>, ring: map<Hash, string>, sorted: seq<Hash>)
  {
    && Sorted(sorted)
    && ring.Keys == ring0.Keys + PointsOf(hash, node, i)
    && (forall h :: h in ring ==> OwnedBy(hash, v, nodes, h, ring[h]))
    && (forall h :: multiset(sorted)[h] == multiset(sorted0)[h] + |SittingOf(hash, node, i, h)|)
  }

  lemma AddingStart(hash: HashFn, v: nat, nodes: set<string>, node: string, ring: map<Hash, string>, sorted: seq<Hash>)
    requires RingInv(hash, v, nodes, ring, sorted)
    ensures Adding(hash, v, nodes + {node}, node, 0, ring, sorted, ring, sorted)
  {
  }

  lemma AddingStep(hash: HashFn, v: nat, nodes: set<string>, node: string, i: nat,
                   ring0: map<Hash, string>, sorted0: seq<Hash>, ring: map<Hash, string>, sorted: seq<Hash>)
    requires i < v && node in nodes && Adding(hash, v, nodes, node, i, ring0, sorted0, ring, sorted)
    ensures var h := Point(hash, node, i);
            Sorted(sorted) && Adding(hash, v, nodes, node, i + 1, ring0, sorted0, ring[h := node], Insort(sorted, h))
  {
    hide Sorted, SittingOf, PointsOf, Insort, OwnedBy, Point;
    PointsGrow(hash, node, i);
    PointIsOwned(hash, v, nodes, node, i);
    InsortAdds(sorted, Point(hash, node, i));
    TallyUp(hash, node, i, multiset(sorted0), multiset(sorted), multiset(Insort(sorted, Point(hash, node, i))));
  }

  lemma PointIsOwned(hash: HashFn, v: nat, nodes: set<string>, node: string, i: nat)
    requires i < v && node in nodes
    ensures OwnedBy(hash, v, nodes, Point(hash, node, i), node)
  {
  }

  lemma TallyUp(hash: HashFn, node: string, i: nat, bag0: multiset<Hash>, bag: multiset<Hash>, bag': multiset<Hash>)
    requires forall h :: bag[h] == bag0[h] + |SittingOf(hash, node, i, h)|
    requires bag' == bag + multiset{Point(hash, node, i)}
    ensures forall h :: bag'[h] == bag0[h] + |SittingOf(hash, node, i + 1, h)|
  {
    hide SittingOf;
    forall h
      ensures bag'[h] == bag0[h] + |SittingOf(hash, node, i + 1, h)|
    {
      SittingGrows(hash, node, i, h);
    }
  }

  lemma AddingEnd(hash: HashFn, v: nat, nodes: set<string>, node: string,
                  ring0: map<Hash, string>, sorted0: seq<Hash>, ring: map<Hash, string>, sorted: seq<Hash>)
    requires RingInv(hash, v, nodes, ring0, sorted0) && node !in nodes
    requires Adding(hash, v, nodes + {node}, node, v, ring0, sorted0, ring, sorted)
    ensures RingInv(hash, v, nodes + {node}, ring, sorted)
  {
    PointsSplit(hash, v, nodes, node);
    hide Sorted, SittingOf, PointsOf, Sitting, OwnedBy;
    forall h
      ensures multiset(sorted)[h] == |Sitting(hash, v, nodes + {node}, h)|
    {
      SittingSplits(hash, v, nodes, node, h);
    }
  }

  /** The ring and the list while `remove_node` has taken out the first `i` virtual nodes of `node`. */
  ghost predicate Removing(hash: HashFn, node: string, i: nat,
                           ring0: map<Hash, string>, sorted0: seq<Hash>, ring: map<Hash, string>, sorted: seq<Hash>)
  {
    && Sorted(sorted)
    && ring == ring0 - PointsOf(hash, node, i)
    && forall h :: multiset(sorted)[h] + (if h in ring0 && h in PointsOf(hash, node, i) then 1 else 0)
                == multiset(sorted0)[h]
  }

  lemma RemovingStart(hash: HashFn, v: nat, nodes: set<string>, node: string, ring: map<Hash, string>,
                      sorted: seq<Hash>)
    requires RingInv(hash, v, nodes, ring, sorted)
    ensures Removing(hash, node, 0, ring, sorted, ring, sorted)
  {
  }

  lemma RemovingStep(hash: HashFn, node: string, i: nat,
                     ring0: map<Hash, string>, sorted0: seq<Hash>, ring: map<Hash, string>, sorted: seq<Hash>)
    requires Removing(hash, node, i, ring0, sorted0, ring, sorted)
    requires forall h :: h in ring0 ==> h in sorted0
    ensures Sorted(sorted)
    ensures var h := Point(hash, node, i);
            if h in ring then Removing(hash, node, i + 1, ring0, sorted0, ring - {h}, Discard(sorted, h))
            else Removing(hash, node, i + 1, ring0, sorted0, ring, sorted)
  {
    var h := Point(hash, node, i);
    PointsGrow(hash, node, i);
    hide Sorted, PointsOf, Discard, Point;
    if h in ring {
      DiscardRemoves(sorted, h);
      MapLoses(ring0, PointsOf(hash, node, i), h);
      CountsDrop(multiset(sorted), multiset(sorted0), ring0.Keys, PointsOf(hash, node, i), h);
    }
  }

  lemma MapLoses(m: map<Hash, string>, gone: set<Hash>, h: Hash)
    ensures (m - gone) - {h} == m - (gone + {h})
  {
  }

  lemma CountsDrop(bag: multiset<Hash>, bag0: multiset<Hash>, keys: set<Hash>, gone: set<Hash>, h: Hash)
    requires forall x :: bag[x] + (if x in keys && x in gone then 1 else 0) == bag0[x]
    requires h in keys && h !in gone && h in bag0
    ensures forall x :: (bag - multiset{h})[x] + (if x in keys && x in gone + {h} then 1 else 0) == bag0[x]
  {
  }

  /** What is left is the ring of the other nodes exactly when no virtual node of `node` shared its point. */
  lemma RemovedPoints(hash: HashFn, v: nat, nodes: set<string>, node: string)
    requires node in nodes
    ensures Points(hash, v, nodes) == Points(hash, v, nodes - {node}) + PointsOf(hash, node, v)
    ensures forall h :: |Sitting(hash, v, nodes, h)|
                     == |Sitting(hash, v, nodes - {node}, h)| + |SittingOf(hash, node, v, h)|
  {
    assert nodes == (nodes - {node}) + {node};
    PointsSplit(hash, v, nodes - {node}, node);
    forall h
      ensures |Sitting(hash, v, nodes, h)| == |Sitting(hash, v, nodes - {node}, h)| + |SittingOf(hash, node, v, h)|
    {
      SittingSplits(hash, v, nodes - {node}, node, h);
    }
  }

  lemma SittingIffPoint(hash: HashFn, v: nat, nodes: set<string>, node: string, h: Hash)
    ensures h in Points(hash, v, nodes) <==> |Sitting(hash, v, nodes, h)| > 0
    ensures h in PointsOf(hash, node, v) <==> |SittingOf(hash, node, v, h)| > 0
  {
    if h in Points(hash, v, nodes) {
      var n, i :| n in nodes && 0 <= i < v && Point(hash, n, i) == h;
      assert (n, i) in Sitting(hash, v, nodes, h);
    } else {
      assert Sitting(hash, v, nodes, h) == {};
    }
    if h in PointsOf(hash, node, v) {
      var i :| 0 <= i < v && Point(hash, node, i) == h;
      assert (node, i) in SittingOf(hash, node, v, h);
    } else {
      assert SittingOf(hash, node, v, h) == {};
    }
  }

  /** The ring maps the points of its nodes to owners, and the list holds one entry per virtual node. */
  ghost predicate RingInv(hash: HashFn, v: nat, nodes: set<string>, ring: map<Hash, string>, sorted: seq<Hash>) {
    && v > 0 && Sorted(sorted)
    && ring.Keys == Points(hash, v, nodes)
    && (forall h :: h in ring ==> OwnedBy(hash, v, nodes, h, ring[h]))
    && (forall h :: multiset(sorted)[h] == |Sitting(hash, v, nodes, h)|)
  }

  lemma RingListed(hash: HashFn, v: nat, nodes: set<string>, ring: map<Hash, string>, sorted: seq<Hash>)
    requires RingInv(hash, v, nodes, ring, sorted)
    ensures Elements(sorted) == ring.Keys
  {
    forall h
      ensures h in Elements(sorted) <==> h in ring
    {
      SittingIffPoint(hash, v, nodes, "", h);
    }
  }

  lemma EmptyRing(hash: HashFn, v: nat, nodes: set<string>, ring: map<Hash, string>, sorted: seq<Hash>)
    requires RingInv(hash, v, nodes, ring, sorted)
    ensures sorted == [] <==> nodes == {}
  {
    RingListed(hash, v, nodes, ring, sorted);
    if sorted != [] {
      assert sorted[0] in Elements(sorted);
    }
    if node :| node in nodes {
      assert Point(hash, node, 0) in Points(hash, v, nodes);
    }
  }

  lemma RemovedIsValid(hash: HashFn, v: nat, nodes: set<string>, node: string,
                       ring0: map<Hash, string>, sorted0: seq<Hash>, ring: map<Hash, string>, sorted: seq<Hash>)
    requires RingInv(hash, v, nodes, ring0, sorted0) && node in nodes
    requires Removing(hash, node, v, ring0, sorted0, ring, sorted) && Unshared(hash, v, nodes, node)
    ensures RingInv(hash, v, nodes - {node}, ring, sorted)
  {
    RemovedPoints(hash, v, nodes, node);
    forall h
      ensures h in PointsOf(hash, node, v) ==> |Sitting(hash, v, nodes, h)| == 1
      ensures h in PointsOf(hash, node, v) <==> |SittingOf(hash, node, v, h)| > 0
      ensures h in Points(hash, v, nodes - {node}) <==> |Sitting(hash, v, nodes - {node}, h)| > 0
      ensures h in Points(hash, v, nodes) <==> |Sitting(hash, v, nodes, h)| > 0
    {
      SittingIffPoint(hash, v, nodes - {node}, node, h);
      SittingIffPoint(hash, v, nodes, node, h);
      if h in PointsOf(hash, node, v) {
        var i :| 0 <= i < v && Point(hash, node, i) == h;
      }
    }
    forall h | h in ring
      ensures OwnedBy(hash, v, nodes - {node}, h, ring[h])
    {
      OwnerStays(hash, v, nodes, node, h, ring0[h]);
    }
    hide Sorted, Points, PointsOf, Sitting, SittingOf, OwnedBy, Unshared;
    assert forall h :: multiset(sorted)[h] == |Sitting(hash, v, nodes - {node}, h)|;
  }

  lemma OwnerStays(hash: HashFn, v: nat, nodes: set<string>, node: string, h: Hash, owner: string)
    requires OwnedBy(hash, v, nodes, h, owner) && h !in PointsOf(hash, node, v)
    ensures OwnedBy(hash, v, nodes - {node}, h, owner)
  {
  }

  lemma RemovingEnd(hash: HashFn, v: nat, nodes: set<string>, node: string,
                    ring0: map<Hash, string>, sorted0: seq<Hash>, ring: map<Hash, string>, sorted: seq<Hash>)
    requires RingInv(hash, v, nodes, ring0, sorted0) && node in nodes
    requires Removing(hash, node, v, ring0, sorted0, ring, sorted)
    ensures Sorted(sorted)
    ensures RingInv(hash, v, nodes - {node}, ring, sorted) <==> Unshared(hash, v, nodes, node)
    ensures !Unshared(hash, v, nodes, node) ==> exists h :: h in sorted && h !in ring
    ensures ring == ring0 - PointsOf(hash, node, v) && forall h :: h in sorted ==> h in sorted0
  {
    assert Sorted(sorted);
    RemovingLeaves(hash, node, v, ring0, sorted0, ring, sorted);
    hide *;
    if Unshared(hash, v, nodes, node) {
      RemovedIsValid(hash, v, nodes, node, ring0, sorted0, ring, sorted);
    } else {
      SharedDangles(hash, v, nodes, node, ring0, sorted0, ring, sorted);
      if RingInv(hash, v, nodes - {node}, ring, sorted) {
        ListedInRing(hash, v, nodes - {node}, ring, sorted);
      }
    }
  }

  lemma RemovingLeaves(hash: HashFn, node: string, i: nat, ring0: map<Hash, string>, sorted0: seq<Hash>,
                       ring: map<Hash, string>, sorted: seq<Hash>)
    requires Removing(hash, node, i, ring0, sorted0, ring, sorted)
    ensures ring == ring0 - PointsOf(hash, node, i) && forall h :: h in sorted ==> h in sorted0
  {
    hide PointsOf, Sorted;
    forall h | h in sorted
      ensures h in sorted0
    {
      assert multiset(sorted)[h] > 0;
    }
  }

  lemma ListedInRing(hash: HashFn, v: nat, nodes: set<string>, ring: map<Hash, string>, sorted: seq<Hash>)
    requires RingInv(hash, v, nodes, ring, sorted)
    ensures forall h :: h in sorted <==> h in ring
  {
    RingListed(hash, v, nodes, ring, sorted);
    assert forall h :: h in sorted <==> h in Elements(sorted);
  }

  lemma SharedDangles(hash: HashFn, v: nat, nodes: set<string>, node: string,
                      ring0: map<Hash, string>, sorted0: seq<Hash>, ring: map<Hash, string>, sorted: seq<Hash>)
    requires RingInv(hash, v, nodes, ring0, sorted0) && node in nodes
    requires Removing(hash, node, v, ring0, sorted0, ring, sorted) && !Unshared(hash, v, nodes, node)
    ensures exists h :: h in sorted && h !in ring
  {
  }

  /** Every virtual node of every node has its place, under the name the source hashes. */
  lemma EveryPointPlaced(hash: HashFn, v: nat, nodes: set<string>, ring: map<Hash, string>, sorted: seq<Hash>,
                         node: string, i: nat)
    requires RingInv(hash, v, nodes, ring, sorted) && node in nodes && i < v
    ensures hash(node + "#" + Decimal(i)) in ring && hash(node + "#" + Decimal(i)) in sorted
  {
    RingListed(hash, v, nodes, ring, sorted);
    assert Point(hash, node, i) in Points(hash, v, nodes);
    assert Point(hash, node, i) in Elements(sorted);
  }

  /** `ring[...]` raises KeyError for a listed hash that the ring has lost. */
  datatype Lookup = NoNodes | Owner(node: string) | KeyError

  class ConsistentHashRing {
    const hash: HashFn
    const virtualNodes: nat
    var ring: map<Hash, string>
    var sortedHashes: seq<Hash>
    var nodes: set<string>

    ghost predicate Valid()
      reads this
    {
      RingInv(hash, virtualNodes, nodes, ring, sortedHashes)
    }

    /** The source raises for a non-positive number of virtual nodes. */
    constructor (hash: HashFn, initial: seq<string>, virtualNodes: nat)
      requires virtualNodes > 0
      ensures this.hash == hash && this.virtualNodes == virtualNodes
      ensures Valid() && forall n :: n in nodes <==> n in initial
    {
      this.hash, this.virtualNodes := hash, virtualNodes;
      ring, sortedHashes, nodes := map[], [], {};
      new;
      assert forall h :: Sitting(hash, virtualNodes, {}, h) == {};
      for k := 0 to |initial|
        invariant Valid() && forall n :: n in nodes <==> n in initial[..k]
      {
        AddNode(initial[k]);
      }
    }

    /** No assumption on collisions. */
    method AddNode(node: string)
      requires Valid()
      modifies this
      ensures Valid() && nodes == old(nodes) + {node}
      ensures node in old(nodes) ==> ring == old(ring) && sortedHashes == old(sortedHashes)
    {
      assert node in nodes ==> nodes == nodes + {node};
      if node !in nodes {
        Place(node);
      }
    }

    /** The loop over the virtual nodes of a newcomer. */
    method Place(node: string)
      requires RingInv(hash, virtualNodes, nodes, ring, sortedHashes) && node !in nodes
      modifies this
      ensures RingInv(hash, virtualNodes, nodes, ring, sortedHashes) && nodes == old(nodes) + {node}
    {
      hide *;
      ghost var ring0, sorted0 := ring, sortedHashes;
      AddingStart(hash, virtualNodes, nodes, node, ring0, sorted0);
      nodes := nodes + {node};
      for i := 0 to virtualNodes
        invariant nodes == old(nodes) + {node}
        invariant Adding(hash, virtualNodes, nodes, node, i, ring0, sorted0, ring, sortedHashes)
      {
        var h := Point(hash, node, i);
        AddingStep(hash, virtualNodes, nodes, node, i, ring0, sorted0, ring, sortedHashes);
        ring, sortedHashes := ring[h := node], Insort(sortedHashes, h);
      }
      AddingEnd(hash, virtualNodes, old(nodes), node, ring0, sorted0, ring, sortedHashes);
    }

    /** Sound exactly when no virtual node of `node` shares its point; otherwise a listed hash loses its ring entry. */
    method RemoveNode(node: string)
      requires Valid()
      modifies this
      ensures nodes == old(nodes) - {node} && Sorted(sortedHashes)
      ensures node !in old(nodes) ==> ring == old(ring) && sortedHashes == old(sortedHashes)
      ensures node in old(nodes) ==> (Valid() <==> Unshared(hash, virtualNodes, old(nodes), node))
      ensures node in old(nodes) ==> ring == old(ring) - PointsOf(hash, node, virtualNodes)
      ensures forall h :: h in sortedHashes ==> h in old(sortedHashes)
      ensures node in old(nodes) && !Unshared(hash, virtualNodes, old(nodes), node) ==>
                exists h :: h in sortedHashes && h !in ring
    {
      if node !in nodes {
        return;
      }
      hide *;
      ListedInRing(hash, virtualNodes, nodes, ring, sortedHashes);
      RemovingStart(hash, virtualNodes, nodes, node, ring, sortedHashes);
      nodes := nodes - {node};
      for i := 0 to virtualNodes
        invariant nodes == old(nodes) - {node}
        invariant Removing(hash, node, i, old(ring), old(sortedHashes), ring, sortedHashes)
      {
        RemovingStep(hash, node, i, old(ring), old(sortedHashes), ring, sortedHashes);
        var h := Point(hash, node, i);
        if h in ring {
          ring := ring - {h};
          sortedHashes := Discard(sortedHashes, h);
        }
      }
      RemovingEnd(hash, virtualNodes, old(nodes), node, old(ring), old(sortedHashes), ring, sortedHashes);
    }

    /** The owner of the next listed point clockwise. */
    method Get(key: string) returns (r: Lookup)
      requires Sorted(sortedHashes)
      ensures sortedHashes == [] ==> r == NoNodes
      ensures forall p :: IsNext(Elements(sortedHashes), hash(key), p) ==>
              r == if p in ring then Owner(ring[p]) else KeyError
      ensures sortedHashes != [] ==>
                exists p :: p in sortedHashes && FirstAfter(sortedHashes, hash(key), p)
                            && r == if p in ring then Owner(ring[p]) else KeyError
      ensures Valid() ==> (r.NoNodes? <==> nodes == {})
      ensures Valid() && nodes != {} ==> r.Owner? && Owns(hash, virtualNodes, nodes, key, r.node)
    {
      if Valid() {
        RingListed(hash, virtualNodes, nodes, ring, sortedHashes);
        EmptyRing(hash, virtualNodes, nodes, ring, sortedHashes);
      }
      if sortedHashes == [] {
        return NoNodes;
      }
      var h := hash(key);
      var idx := BisectRight(sortedHashes, h);
      BisectFindsNext(sortedHashes, h);
      if idx == |sortedHashes| {
        idx := 0;
      }
      var p := sortedHashes[idx];
      assert p in sortedHashes && FirstAfter(sortedHashes, h, p);
      forall q | IsNext(Elements(sortedHashes), h, q)
        ensures q == p
      {
        NextUnique(Elements(sortedHashes), h, p, q);
      }
      if p in ring {
        r := Owner(ring[p]);
      } else {
        r := KeyError;
      }
    }
  }

  /** The unsound removal, concretely: all points coincide, and after one of two nodes has left, the other one
      is still listed but has lost its place in the ring. */
  method SharedPointBreaksGet(key: string) returns (answer: Lookup)
    ensures answer == KeyError
  {
    var r := new ConsistentHashRing(_ => 7, ["a", "b"], 1);
    ghost var both := r.nodes;
    assert "a" in both && "b" in both;
    OnePoint(r.hash, both);
    ListedInRing(r.hash, 1, both, r.ring, r.sortedHashes);
    r.RemoveNode("a");
    assert Elements(r.sortedHashes) == {7};
    assert IsNext(Elements(r.sortedHashes), r.hash(key), 7);
    answer := r.Get(key);
  }

  lemma OnePoint(hash: HashFn, nodes: set<string>)
    requires (forall s :: hash(s) == 7) && "a" in nodes && "b" in nodes
    ensures Points(hash, 1, nodes) == {7} && PointsOf(hash, "a", 1) == {7} && !Unshared(hash, 1, nodes, "a")
  {
    assert Point(hash, "a", 0) == 7 && Point(hash, "b", 0) == 7;
    var here := Sitting(hash, 1, nodes, 7);
    assert ("a", 0) in here && ("b", 0) in here;
    assert here == {("a", 0)} + (here - {("a", 0)}) && ("b", 0) in here - {("a", 0)};
  }
}
