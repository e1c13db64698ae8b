/** The Bloom filter and its Redis twin (crawler/dedup/bloom.py). */
module Bloom {

  /** The two Murmur3 values of a key; `second` takes the first as its seed. */
  datatype Hashes = Hashes(first: string -> nat, second: (string, nat) -> nat)

  /** `x | 1` */
  function MakeOdd(x: nat): nat {
    if x % 2 == 1 then x else x + 1
  }

  function Index(h1: nat, h2: nat, m: nat, i: nat): (idx: nat)
    requires m > 0
    ensures idx < m
  {
    (h1 + i * h2) % m
  }

  function Stride(h: Hashes, key: string): nat {
    MakeOdd(h.second(key, h.first(key)))
  }

  /** `bloom_indices` */
  function Indices(h: Hashes, key: string, m: nat, k: nat): (r: seq<nat>)
    requires m > 0
    ensures |r| == k && forall idx :: idx in r ==> idx < m
  {
    seq(k, i requires 0 <= i => Index(h.first(key), Stride(h, key), m, i))
  }

  /** The positions of a key: `k` steps of an odd stride from the first hash, round a circle of `m`. */
  lemma PositionsOf(h: Hashes, key: string, m: nat, k: nat) returns (stride: nat)
    requires m > 0
    ensures stride % 2 == 1 && (stride == h.second(key, h.first(key)) || stride == h.second(key, h.first(key)) + 1)
    ensures forall i :: 0 <= i < k ==> Indices(h, key, m, k)[i] == (h.first(key) + i * stride) % m
    ensures forall idx :: idx in IndexSet(h, key, m, k) <==> idx in Indices(h, key, m, k)
  {
    stride := Stride(h, key);
  }

  function Members(s: seq<nat>): set<nat> {
    set idx | idx in s
  }

  function IndexSet(h: Hashes, key: string, m: nat, k: nat): set<nat>
    requires m > 0
  {
    Members(Indices(h, key, m, k))
  }

  lemma MembersPrefix(s: seq<nat>, j: nat)
    requires j < |s|
    ensures Members(s[..j + 1]) == Members(s[..j]) + {s[j]}
  {
  }

  lemma {:induction false} FewMembers(s: seq<nat>)
    ensures |Members(s)| <= |s|
  {
    if s != [] {
      FewMembers(s[..|s| - 1]);
      MembersPrefix(s, |s| - 1);
      assert s[..|s|] == s;
    }
  }

  lemma {:induction false} SmallNumbers(s: set<nat>, m: nat)
    requires forall idx :: idx in s ==> idx < m
    ensures |s| <= m
  {
    if m == 0 {
      assert s == {};
    } else {
      SmallNumbers(s - {m - 1}, m - 1);
    }
  }

  // ---------------------------------------------------------------- one byte

  /** `1 << bit` */
  function Mask(bit: nat): bv8
    requires bit < 8
  {
    match bit
    case 0 => 1 case 1 => 2 case 2 => 4 case 3 => 8
    case 4 => 16 case 5 => 32 case 6 => 64 case 7 => 128
  }

  predicate BitSet(byte: bv8, bit: nat)
    requires bit < 8
  {
    byte & Mask(bit) != 0
  }

  lemma OrSetsOneBit(byte: bv8, bit: nat, other: nat)
    requires bit < 8 && other < 8
    ensures BitSet(byte | Mask(bit), other) <==> BitSet(byte, other) || bit == other
  {
  }

  /** The test of `__contains__` is the test of `check_and_add`. */
  lemma ShiftTestsMask(byte: bv8, bit: nat)
    requires bit < 8
    ensures (byte >> bit) & 1 == 1 <==> BitSet(byte, bit)
  {
  }

  /** The positions below `m` whose bit is set. */
  function Positions(bytes: seq<bv8>, m: nat): set<nat>
    requires |bytes| == (m + 7) / 8
  {
    set idx | 0 <= idx < m && BitSet(bytes[idx / 8], idx % 8)
  }

  lemma OrAddsPosition(bytes: seq<bv8>, m: nat, idx: nat)
    requires |bytes| == (m + 7) / 8 && idx < m
    ensures Positions(bytes[idx / 8 := bytes[idx / 8] | Mask(idx % 8)], m) == Positions(bytes, m) + {idx}
  {
    var after := bytes[idx / 8 := bytes[idx / 8] | Mask(idx % 8)];
    forall p | 0 <= p < m
      ensures BitSet(after[p / 8], p % 8) <==> BitSet(bytes[p / 8], p % 8) || p == idx
    {
      OrSetsOneBit(bytes[p / 8], idx % 8, p % 8);
    }
    hide BitSet, Mask;
  }

  /** Each new key set at least one bit and at most `k`. */
  ghost predicate CountFits(bits: set<nat>, count: nat, m: nat, k: nat) {
    count <= |bits| <= k * count && |bits| <= m
  }

  /** Every key added has all its positions set: no false negatives. */
  ghost predicate AllPresent(added: set<string>, bits: set<nat>, h: Hashes, m: nat, k: nat)
    requires m > 0
  {
    forall key :: key in added ==> IndexSet(h, key, m, k) <= bits
  }

  lemma PresentKept(added: set<string>, bits: set<nat>, key: string, h: Hashes, m: nat, k: nat)
    requires m > 0 && AllPresent(added, bits, h, m, k)
    ensures AllPresent(added + {key}, bits + IndexSet(h, key, m, k), h, m, k)
    ensures !(IndexSet(h, key, m, k) <= bits) ==> key !in added
  {
  }

  // ---------------------------------------------------------------- the filter in memory

  class BloomFilter {
    const hashes: Hashes
    const m: nat
    const k: nat
    const bits: array<bv8>
    var count: nat
    /** All keys ever passed to `check_and_add`. */
    ghost var added: set<string>

    ghost function SetBits(): set<nat>
      requires bits.Length == (m + 7) / 8
      reads bits
    {
      Positions(bits[..], m)
    }

    ghost predicate Valid()
      reads this, bits
    {
      && m >= 8 && k >= 1 && bits.Length == (m + 7) / 8
      && AllPresent(added, SetBits(), hashes, m, k)
      && CountFits(SetBits(), count, m, k)
    }

    /** Sizes as `optimal_m` and `optimal_k` give them. */
    constructor (hashes: Hashes, m: nat, k: nat)
      requires m >= 8 && k >= 1
      ensures Valid() && fresh(bits) && SetBits() == {} && added == {} && count == 0
      ensures this.hashes == hashes && this.m == m && this.k == k
    {
      this.hashes, this.m, this.k := hashes, m, k;
      bits := new bv8[(m + 7) / 8](_ => 0);
      count, added := 0, {};
    }

    /** One turn of the loop: look at the bit under the mask and set it. */
    method TestAndSet(idx: nat) returns (wasClear: bool)
      requires bits.Length == (m + 7) / 8 && idx < m
      modifies bits
      ensures wasClear <==> idx !in old(SetBits())
      ensures SetBits() == old(SetBits()) + {idx}
    {
      var byte, mask := idx / 8, Mask(idx % 8);
      OrAddsPosition(bits[..], m, idx);
      wasClear := bits[byte] & mask == 0;
      if wasClear {
        ghost var before := bits[..];
        bits[byte] := bits[byte] | mask;
        assert bits[..] == before[byte := before[byte] | mask];
      } else {
        assert idx in SetBits();
      }
    }

    /** New exactly if some position of the key was clear; then all of them are set. */
    method CheckAndAdd(key: string) returns (wasAbsent: bool)
      requires Valid()
      modifies this, bits
      ensures Valid()
      ensures wasAbsent <==> !(IndexSet(hashes, key, m, k) <= old(SetBits()))
      ensures SetBits() == old(SetBits()) + IndexSet(hashes, key, m, k)
      ensures wasAbsent ==> key !in old(added)
      ensures added == old(added) + {key} && count == old(count) + if wasAbsent then 1 else 0
    {
      var indices := Indices(hashes, key, m, k);
      ghost var before, its := SetBits(), IndexSet(hashes, key, m, k);
      FewMembers(indices);
      PresentKept(added, before, key, hashes, m, k);
      wasAbsent := SetAll(indices);
      BitsInRange();
      AccountKept(before, its, count, m, k);
      hide *;
      if wasAbsent {
        count := count + 1;
      }
      added := added + {key};
    }

    /** The loop over the positions. */
    method SetAll(indices: seq<nat>) returns (someClear: bool)
      requires bits.Length == (m + 7) / 8 && forall idx :: idx in indices ==> idx < m
      modifies bits
      ensures SetBits() == old(SetBits()) + Members(indices)
      ensures someClear <==> !(Members(indices) <= old(SetBits()))
    {
      hide SetBits;
      someClear := false;
      for j := 0 to |indices|
        invariant SetBits() == old(SetBits()) + Members(indices[..j])
        invariant someClear <==> !(Members(indices[..j]) <= old(SetBits()))
      {
        MembersPrefix(indices, j);
        assert indices[j] in indices;
        var wasClear := TestAndSet(indices[j]);
        if wasClear {
          someClear := true;
        }
      }
      assert indices[..|indices|] == indices;
    }

    /** Position `idx` is bit `idx % 8` of byte `idx / 8`. */
    lemma SetBitsAre(idx: nat)
      requires bits.Length == (m + 7) / 8 && idx < m
      ensures idx in SetBits() <==> (bits[idx / 8] >> (idx % 8)) & 1 == 1
    {
      ShiftTestsMask(bits[idx / 8], idx % 8);
    }

    lemma BitsInRange()
      requires bits.Length == (m + 7) / 8
      ensures |SetBits()| <= m
    {
      SmallNumbers(SetBits(), m);
    }

    /** `__contains__` */
    method Contains(key: string) returns (present: bool)
      requires Valid()
      ensures present <==> IndexSet(hashes, key, m, k) <= SetBits()
      ensures key in added ==> present
    {
      var indices := Indices(hashes, key, m, k);
      for j := 0 to k
        invariant Members(indices[..j]) <= SetBits()
      {
        MembersPrefix(indices, j);
        var idx := indices[j];
        ShiftTestsMask(bits[idx / 8], idx % 8);
        if (bits[idx / 8] >> (idx % 8)) & 1 != 1 {
          assert idx in IndexSet(hashes, key, m, k);
          return false;
        }
      }
      assert indices[..k] == indices;
      return true;
    }
  }

  /** One insertion keeps the number of set bits between the count and `k` times the count. */
  lemma AccountKept(before: set<nat>, more: set<nat>, count: nat, m: nat, k: nat)
    requires CountFits(before, count, m, k) && |more| <= k && |before + more| <= m
    ensures CountFits(before + more, if more <= before then count else count + 1, m, k)
  {
    CountBounds(before, more);
    assert k * (count + 1) == k * count + k;
  }

  lemma CountBounds(before: set<nat>, more: set<nat>)
    ensures |before| <= |before + more| <= |before| + |more|
    ensures !(more <= before) ==> |before + more| >= |before| + 1
    ensures more <= before ==> before + more == before
  {
    assert |before + more| == |before| + |more - before|;
    assert more - before <= more;
    SubsetSmaller(more - before, more);
    if !(more <= before) {
      var x :| x in more && x !in before;
      assert x in more - before;
    }
  }

  lemma {:induction false} SubsetSmaller(a: set<nat>, b: set<nat>)
    requires a <= b
    ensures |a| <= |b|
  {
    assert b == a + (b - a);
    assert |b| == |a| + |b - a|;
  }

  // ---------------------------------------------------------------- the filter in Redis

  /** The script: the bitfield is the set of its set positions; 1 means that all were set before. */
  method Script(bits: set<nat>, argv: seq<nat>) returns (allSet: int, bits': set<nat>)
    ensures bits' == bits + Members(argv)
    ensures allSet == if Members(argv) <= bits then 1 else 0
  {
    allSet, bits' := 1, bits;
    for j := 0 to |argv|
      invariant bits' == bits + Members(argv[..j])
      invariant allSet == if Members(argv[..j]) <= bits then 1 else 0
    {
      MembersPrefix(argv, j);
      var idx := argv[j];
      if idx !in bits' {
        allSet := 0;
        bits' := bits' + {idx};
      }
    }
    assert argv[..|argv|] == argv;
  }

  class RedisBloomFilter {
    const hashes: Hashes
    const m: nat
    const k: nat
    var bits: set<nat>

    constructor (hashes: Hashes, m: nat, k: nat)
      requires m >= 8 && k >= 1
      ensures this.hashes == hashes && this.m == m && this.k == k && bits == {}
    {
      this.hashes, this.m, this.k := hashes, m, k;
      bits := {};
    }

    /** The same answer and the same positions as `BloomFilter.CheckAndAdd`. */
    method CheckAndAdd(key: string) returns (wasAbsent: bool)
      requires m >= 8
      modifies this
      ensures wasAbsent <==> !(IndexSet(hashes, key, m, k) <= old(bits))
      ensures bits == old(bits) + IndexSet(hashes, key, m, k)
    {
      var allSet, bits' := Script(bits, Indices(hashes, key, m, k));
      bits := bits';
      return allSet == 0;
    }
  }
}
