/** SimHash fingerprints (simhash_text of crawler/dedup/simhash.py) for any token hash. */
module Simhash {
  import opened Bits

  type TokenHash = string -> nat

  /** A token votes on each bit with its hash. */
  function Sign(hash: TokenHash, token: string, i: nat): int {
    if Bit(hash(token), i) then 1 else -1
  }

  /** The sum of the votes of all tokens on bit `i`: the reference for `vector[i]`. */
  function Vote(hash: TokenHash, tokens: seq<string>, i: nat): int {
    if tokens == [] then 0
    else Vote(hash, tokens[..|tokens| - 1], i) + Sign(hash, tokens[|tokens| - 1], i)
  }

  /** The reference fingerprint: bit `i` is the majority vote. */
  function Fingerprint(hash: TokenHash, tokens: seq<string>, bits: nat): nat {
    if bits == 0 then 0
    else Fingerprint(hash, tokens, bits - 1) + if Vote(hash, tokens, bits - 1) > 0 then Pow2(bits - 1) else 0
  }

  // ---------------------------------------------------------------- Counter

  type Items = seq<(string, nat)>

  /** Count one more occurrence; new tokens go to the end. */
  function Count(items: Items, token: string): Items {
    if items == [] then [(token, 1)]
    else if items[0].0 == token then [(token, items[0].1 + 1)] + items[1..]
    else [items[0]] + Count(items[1..], token)
  }

  /** `Counter(tokens).items()` */
  function Counter(tokens: seq<string>): Items {
    if tokens == [] then [] else Count(Counter(tokens[..|tokens| - 1]), tokens[|tokens| - 1])
  }

  function Weighted(hash: TokenHash, items: Items, i: nat): int {
    if items == [] then 0
    else items[0].1 * Sign(hash, items[0].0, i) + Weighted(hash, items[1..], i)
  }

  lemma {:induction false} CountAddsVote(hash: TokenHash, items: Items, token: string, i: nat)
    ensures Weighted(hash, Count(items, token), i) == Weighted(hash, items, i) + Sign(hash, token, i)
  {
    if items != [] {
      var counted := Count(items, token);
      if items[0].0 == token {
        assert counted[1..] == items[1..];
      } else {
        assert counted[1..] == Count(items[1..], token);
        CountAddsVote(hash, items[1..], token, i);
      }
    }
  }

  lemma {:induction false} CounterVotes(hash: TokenHash, tokens: seq<string>, i: nat)
    ensures Weighted(hash, Counter(tokens), i) == Vote(hash, tokens, i)
    decreases |tokens|
  {
    if tokens != [] {
      var n := |tokens| - 1;
      CounterVotes(hash, tokens[..n], i);
      CountAddsVote(hash, Counter(tokens[..n]), tokens[n], i);
    }
  }

  lemma {:induction false} WeightedSnoc(hash: TokenHash, items: Items, item: (string, nat), i: nat)
    ensures Weighted(hash, items + [item], i) == Weighted(hash, items, i) + item.1 * Sign(hash, item.0, i)
  {
    if items == [] {
      assert (items + [item])[1..] == [];
    } else {
      assert (items + [item])[1..] == items[1..] + [item];
      WeightedSnoc(hash, items[1..], item, i);
    }
  }

  // ---------------------------------------------------------------- bits of the fingerprint

  lemma {:induction false} FingerprintRange(hash: TokenHash, tokens: seq<string>, bits: nat)
    ensures Fingerprint(hash, tokens, bits) < Pow2(bits)
  {
    if bits > 0 {
      FingerprintRange(hash, tokens, bits - 1);
    }
  }

  lemma {:induction false} TopBit(x: nat, n: nat, i: nat)
    requires x < Pow2(n)
    ensures i < n ==> (Bit(x + Pow2(n), i) <==> Bit(x, i))
    ensures i == n ==> Bit(x + Pow2(n), i)
    ensures i >= n ==> !Bit(x, i)
  {
    if i == 0 {
      if n > 0 {
        assert (x + Pow2(n)) % 2 == x % 2;
      }
    } else if n == 0 {
      TopBit(0, 0, i - 1);
    } else {
      assert (x + Pow2(n)) / 2 == x / 2 + Pow2(n - 1);
      TopBit(x / 2, n - 1, i - 1);
    }
  }

  /** Bit `i` of the fingerprint is set exactly when the votes on it are positive. */
  lemma {:induction false} FingerprintBit(hash: TokenHash, tokens: seq<string>, bits: nat, i: nat)
    ensures Bit(Fingerprint(hash, tokens, bits), i) <==> i < bits && Vote(hash, tokens, i) > 0
    decreases bits
  {
    FingerprintRange(hash, tokens, bits);
    if bits == 0 || i >= bits {
      TopBit(Fingerprint(hash, tokens, bits), bits, i);
    } else {
      FingerprintRange(hash, tokens, bits - 1);
      TopBit(Fingerprint(hash, tokens, bits - 1), bits - 1, i);
      FingerprintBit(hash, tokens, bits - 1, i);
    }
  }

  lemma {:induction false} FingerprintByVotes(hash: TokenHash, a: seq<string>, b: seq<string>, bits: nat)
    requires forall i: nat :: i < bits ==> (Vote(hash, a, i) > 0 <==> Vote(hash, b, i) > 0)
    ensures Fingerprint(hash, a, bits) == Fingerprint(hash, b, bits)
  {
    if bits > 0 {
      FingerprintByVotes(hash, a, b, bits - 1);
    }
  }

  /** `simhash_text` after tokenisation. Bit `i` of the fingerprint under construction is still clear
      when it is set, so the source's `|=` is an addition. */
  method SimhashText(hash: TokenHash, tokens: seq<string>, bits: nat) returns (fingerprint: nat)
    ensures fingerprint == Fingerprint(hash, tokens, bits)
  {
    if tokens == [] {
      NoVotes(hash, bits);
      return 0;
    }
    var vector := new int[bits](_ => 0);
    var items := Counter(tokens);
    for k := 0 to |items|
      invariant forall i: nat :: i < bits ==> vector[i] == Weighted(hash, items[..k], i)
    {
      var (token, weight) := items[k];
      var h := hash(token);
      ghost var before := vector[..];
      for i := 0 to bits
        invariant forall j: nat :: j < i ==> vector[j] == before[j] + weight * Sign(hash, token, j)
        invariant forall j: nat :: i <= j < bits ==> vector[j] == before[j]
      {
        if Shr(h, i) % 2 == 1 {
          vector[i] := vector[i] + weight;
        } else {
          vector[i] := vector[i] - weight;
        }
      }
      assert items[..k + 1] == items[..k] + [items[k]];
      forall i: nat | i < bits
        ensures vector[i] == Weighted(hash, items[..k + 1], i)
      {
        WeightedSnoc(hash, items[..k], items[k], i);
      }
    }
    assert items[..|items|] == items;
    forall i: nat | i < bits
      ensures vector[i] == Vote(hash, tokens, i)
    {
      CounterVotes(hash, tokens, i);
    }
    fingerprint := 0;
    for i := 0 to bits
      invariant fingerprint == Fingerprint(hash, tokens, i)
    {
      if vector[i] > 0 {
        fingerprint := fingerprint + Pow2(i);
      }
    }
  }

  /** The votes weigh the tokens whose hash has bit `i` set against the others. */
  lemma {:induction false} VoteIsMajority(hash: TokenHash, tokens: seq<string>, i: nat)
    ensures Vote(hash, tokens, i)
         == 2 * |set k | 0 <= k < |tokens| && hash(tokens[k]) / Pow2(i) % 2 == 1| - |tokens|
    decreases |tokens|
  {
    var ayes := set k | 0 <= k < |tokens| && hash(tokens[k]) / Pow2(i) % 2 == 1;
    if tokens != [] {
      var n := |tokens| - 1;
      VoteIsMajority(hash, tokens[..n], i);
      ShiftIsDivision(hash(tokens[n]), i);
      var before := set k | 0 <= k < n && hash(tokens[..n][k]) / Pow2(i) % 2 == 1;
      assert ayes == if hash(tokens[n]) / Pow2(i) % 2 == 1 then before + {n} else before;
    }
  }

  /** Bit `i` of the fingerprint is set exactly when it is set in the hashes of more than half of the tokens. */
  lemma MajorityBit(hash: TokenHash, tokens: seq<string>, bits: nat, i: nat)
    ensures Fingerprint(hash, tokens, bits) / Pow2(i) % 2 == 1 <==>
            i < bits && 2 * |set k | 0 <= k < |tokens| && hash(tokens[k]) / Pow2(i) % 2 == 1| > |tokens|
  {
    FingerprintBit(hash, tokens, bits, i);
    ShiftIsDivision(Fingerprint(hash, tokens, bits), i);
    VoteIsMajority(hash, tokens, i);
  }

  /** The fingerprint of one token is its own hash, cut to the width. */
  lemma {:induction false} OneToken(hash: TokenHash, token: string, bits: nat)
    ensures Fingerprint(hash, [token], bits) == hash(token) % Pow2(bits)
  {
    if bits > 0 {
      OneToken(hash, token, bits - 1);
      VoteOne(hash, token, bits - 1);
      ShiftIsDivision(hash(token), bits - 1);
      NextBit(hash(token), Pow2(bits - 1));
    }
  }

  lemma NextBit(x: nat, p: nat)
    requires p > 0
    ensures x % (2 * p) == x % p + if x / p % 2 == 1 then p else 0
  {
    var q := x / p;
    assert x == q * p + x % p && q == 2 * (q / 2) + q % 2;
    assert q * p == (q / 2) * (2 * p) + (q % 2) * p;
    DivisionUnique(x, 2 * p, q / 2, x % p + if q % 2 == 1 then p else 0);
  }

  lemma {:induction false} NoVotes(hash: TokenHash, bits: nat)
    ensures Fingerprint(hash, [], bits) == 0
  {
    if bits > 0 {
      NoVotes(hash, bits - 1);
    }
  }

  // ---------------------------------------------------------------- votes depend on the bag of tokens only

  lemma {:induction false} VoteConcat(hash: TokenHash, a: seq<string>, b: seq<string>, i: nat)
    ensures Vote(hash, a + b, i) == Vote(hash, a, i) + Vote(hash, b, i)
    decreases |b|
  {
    if b == [] {
      assert a + b == a;
    } else {
      var n := |b| - 1;
      assert (a + b)[..|a + b| - 1] == a + b[..n];
      VoteConcat(hash, a, b[..n], i);
    }
  }

  lemma VoteOne(hash: TokenHash, token: string, i: nat)
    ensures Vote(hash, [token], i) == Sign(hash, token, i)
  {
  }

  lemma {:induction false} VotePermuted(hash: TokenHash, a: seq<string>, b: seq<string>, i: nat)
    requires multiset(a) == multiset(b)
    ensures Vote(hash, a, i) == Vote(hash, b, i)
    decreases |a|
  {
    if a == [] {
      assert |b| == |multiset(b)| == 0;
    } else {
      var n := |a| - 1;
      var t := a[n];
      assert a == a[..n] + [t];
      assert t in multiset(b);
      var j :| 0 <= j < |b| && b[j] == t;
      assert b == b[..j] + [t] + b[j + 1..];
      var b' := b[..j] + b[j + 1..];
      assert multiset(b') == multiset(b) - multiset{t} == multiset(a[..n]);
      VotePermuted(hash, a[..n], b', i);
      VoteConcat(hash, b[..j] + [t], b[j + 1..], i);
      VoteConcat(hash, b[..j], [t], i);
      VoteConcat(hash, b[..j], b[j + 1..], i);
      VoteOne(hash, t, i);
    }
  }

  /** The order of the tokens does not matter. */
  lemma OrderIrrelevant(hash: TokenHash, a: seq<string>, b: seq<string>, bits: nat)
    requires multiset(a) == multiset(b)
    ensures Fingerprint(hash, a, bits) == Fingerprint(hash, b, bits)
  {
    forall i: nat | i < bits
      ensures Vote(hash, a, i) == Vote(hash, b, i)
    {
      VotePermuted(hash, a, b, i);
    }
    FingerprintByVotes(hash, a, b, bits);
  }

  function Repeat(a: seq<string>, c: nat): seq<string> {
    if c == 0 then [] else Repeat(a, c - 1) + a
  }

  lemma {:induction false} RepeatScalesVotes(hash: TokenHash, a: seq<string>, c: nat, i: nat)
    ensures Vote(hash, Repeat(a, c), i) == c * Vote(hash, a, i)
  {
    if c > 0 {
      RepeatScalesVotes(hash, a, c - 1, i);
      VoteConcat(hash, Repeat(a, c - 1), a, i);
      Successor(c, Vote(hash, a, i));
    }
  }

  lemma {:induction false} RepeatScalesCounts(a: seq<string>, c: nat, t: string)
    ensures multiset(Repeat(a, c))[t] == c * multiset(a)[t]
  {
    if c > 0 {
      RepeatScalesCounts(a, c - 1, t);
      Successor(c, multiset(a)[t]);
    }
  }

  lemma Successor(c: nat, x: int)
    requires c > 0
    ensures c * x == (c - 1) * x + x
  {
  }

  /** Multiplying every token count by the same number leaves the fingerprint alone. */
  lemma ScaleInvariant(hash: TokenHash, a: seq<string>, b: seq<string>, c: nat, bits: nat)
    requires c >= 1 && forall t :: multiset(b)[t] == c * multiset(a)[t]
    ensures Fingerprint(hash, a, bits) == Fingerprint(hash, b, bits)
  {
    forall i: nat | i < bits
      ensures Vote(hash, a, i) > 0 <==> Vote(hash, b, i) > 0
    {
      RepeatScalesVotes(hash, a, c, i);
      forall t
        ensures multiset(Repeat(a, c))[t] == multiset(b)[t]
      {
        RepeatScalesCounts(a, c, t);
      }
      assert multiset(Repeat(a, c)) == multiset(b);
      VotePermuted(hash, Repeat(a, c), b, i);
      PositiveMultiple(c, Vote(hash, a, i));
    }
    FingerprintByVotes(hash, a, b, bits);
  }

  lemma PositiveMultiple(c: nat, x: int)
    requires c >= 1
    ensures c * x > 0 <==> x > 0
  {
  }

  lemma {:induction false} ListOf(bag: multiset<string>) returns (s: seq<string>)
    ensures multiset(s) == bag
    decreases |bag|
  {
    if bag == multiset{} {
      s := [];
    } else {
      var t :| t in bag;
      s := ListOf(bag - multiset{t});
      s := s + [t];
    }
  }

  lemma {:induction false} VoteBounded(hash: TokenHash, a: seq<string>, i: nat)
    ensures -|a| <= Vote(hash, a, i) <= |a|
    decreases |a|
  {
    if a != [] {
      VoteBounded(hash, a[..|a| - 1], i);
    }
  }

  lemma VoteSplits(hash: TokenHash, a: seq<string>, common: seq<string>, extra: seq<string>, i: nat)
    requires multiset(a) == multiset(common) + multiset(extra)
    ensures Vote(hash, common, i) - |extra| <= Vote(hash, a, i) <= Vote(hash, common, i) + |extra|
    ensures Vote(hash, a, i) == Vote(hash, common, i) + Vote(hash, extra, i)
  {
    assert multiset(common + extra) == multiset(a);
    VotePermuted(hash, a, common + extra, i);
    VoteConcat(hash, common, extra, i);
    VoteBounded(hash, extra, i);
  }

  /** Tokens that one document has and the other lacks, counted with multiplicity. */
  function Edits(a: seq<string>, b: seq<string>): int {
    |multiset(a) - multiset(b)| + |multiset(b) - multiset(a)|
  }

  lemma VotesMoveByEdits(hash: TokenHash, a: seq<string>, b: seq<string>, i: nat)
    ensures -Edits(a, b) <= Vote(hash, b, i) - Vote(hash, a, i) <= Edits(a, b)
  {
    var common := ListOf(multiset(a) * multiset(b));
    var x := ListOf(multiset(a) - multiset(b));
    var y := ListOf(multiset(b) - multiset(a));
    VoteSplits(hash, a, common, x, i);
    VoteSplits(hash, b, common, y, i);
    assert |x| == |multiset(x)| && |y| == |multiset(y)|;
  }

  /** Editing a document moves a bit only if the votes on it were closer than the edits. */
  lemma BitSurvivesEdits(hash: TokenHash, a: seq<string>, b: seq<string>, bits: nat, i: nat)
    requires Vote(hash, a, i) > Edits(a, b) || Vote(hash, a, i) <= -Edits(a, b)
    ensures Bit(Fingerprint(hash, a, bits), i) == Bit(Fingerprint(hash, b, bits), i)
  {
    VotesMoveByEdits(hash, a, b, i);
    FingerprintBit(hash, a, bits, i);
    FingerprintBit(hash, b, bits, i);
  }
}
