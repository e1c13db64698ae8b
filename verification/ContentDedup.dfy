/** Near-duplicate detection with LSH buckets (crawler/dedup/dedup_service.py, band_values and
    hamming_distance of crawler/dedup/simhash.py). */
module ContentDedup {
  import opened Bits

  function HammingDistance(a: nat, b: nat): nat {
    BitCount(Xor(a, b))
  }

  /** Value number `b` of `band_values`, for bands of `size` bits. */
  function Band(fingerprint: nat, b: nat, size: nat): nat {
    Low(Shr(fingerprint, b * size), size)
  }

  function BandValues(fingerprint: nat, bands: nat, bits: nat): (values: seq<nat>)
    requires bands > 0
    ensures |values| == bands
    ensures forall b :: 0 <= b < bands ==> values[b] == Band(fingerprint, b, bits / bands)
  {
    seq(bands, b requires 0 <= b => Band(fingerprint, b, bits / bands))
  }

  ghost predicate SharesBand(f: nat, g: nat, bands: nat, size: nat) {
    exists b: nat :: b < bands && Band(f, b, size) == Band(g, b, size)
  }

  // ---------------------------------------------------------------- the pigeonhole

  lemma HammingByBits(a: nat, b: nat)
    ensures HammingDistance(a, b) == (a % 2 + b % 2) % 2 + HammingDistance(a / 2, b / 2)
  {
  }

  function Up(s: set<nat>): set<nat> {
    set i | i in s :: i + 1
  }

  lemma UpHas(s: set<nat>, y: nat)
    ensures y in Up(s) <==> y > 0 && y - 1 in s
  {
    if y > 0 && y - 1 in s {
      assert (y - 1) + 1 in Up(s);
    }
  }

  lemma {:induction false} UpKeepsSize(s: set<nat>)
    ensures |Up(s)| == |s|
  {
    if s == {} {
      assert Up(s) == {};
    } else {
      var x :| x in s;
      var rest := s - {x};
      UpKeepsSize(rest);
      forall y: nat
        ensures y in Up(s) <==> y in Up(rest) + {x + 1}
      {
        UpHas(s, y);
        UpHas(rest, y);
      }
      UpHas(rest, x + 1);
      hide Up;
      assert Up(s) == Up(rest) + {x + 1};
    }
  }

  predicate DiffersAt(a: nat, b: nat, i: nat) {
    a / Pow2(i) % 2 != b / Pow2(i) % 2
  }

  lemma DiffersAtNext(a: nat, b: nat, i: nat)
    ensures DiffersAt(a, b, i) <==> if i == 0 then a % 2 != b % 2 else DiffersAt(a / 2, b / 2, i - 1)
  {
    if i > 0 {
      NextPlace(a, i);
      NextPlace(b, i);
    }
  }

  /** The binary places below `n` in which two numbers differ. */
  function Differing(a: nat, b: nat, n: nat): set<nat> {
    set i: nat | i < n && DiffersAt(a, b, i)
  }

  lemma DifferingCount(a: nat, b: nat, n: nat, half: nat, half': nat)
    requires n > 0 && half == a / 2 && half' == b / 2
    ensures |Differing(a, b, n)| == |Differing(half, half', n - 1)| + if a % 2 != b % 2 then 1 else 0
  {
    hide *;
    DifferingSplits(a, b, n, half, half');
    UpKeepsSize(Differing(half, half', n - 1));
    UpHas(Differing(half, half', n - 1), 0);
    AddZero(Up(Differing(half, half', n - 1)));
  }

  lemma AddZero(s: set<nat>)
    requires 0 !in s
    ensures |s + {0}| == |s| + 1 && s + {} == s
  {
  }

  lemma DifferingSplits(a: nat, b: nat, n: nat, half: nat, half': nat)
    requires n > 0 && half == a / 2 && half' == b / 2
    ensures Differing(a, b, n) == Up(Differing(half, half', n - 1)) + if a % 2 != b % 2 then {0} else {}
  {
    var all, upper := Differing(a, b, n), Differing(half, half', n - 1);
    hide *;
    forall i: nat
      ensures i in all <==> i in Up(upper) || (i == 0 && a % 2 != b % 2)
    {
      DifferingElement(a, b, n, half, half', i);
    }
  }

  lemma DifferingElement(a: nat, b: nat, n: nat, half: nat, half': nat, i: nat)
    requires n > 0 && half == a / 2 && half' == b / 2
    ensures i in Differing(a, b, n) <==> i in Up(Differing(half, half', n - 1)) || (i == 0 && a % 2 != b % 2)
  {
    hide *;
    UpHas(Differing(half, half', n - 1), i);
    DiffersAtNext(a, b, i);
    DifferingHas(a, b, n, i);
    if i > 0 {
      DifferingHas(half, half', n - 1, i - 1);
    }
  }

  lemma DifferingHas(a: nat, b: nat, n: nat, i: nat)
    ensures i in Differing(a, b, n) <==> i < n && DiffersAt(a, b, i)
  {
    hide DiffersAt;
  }

  lemma {:induction false} HammingIsDiffering(a: nat, b: nat, n: nat)
    requires a < Pow2(n) && b < Pow2(n)
    ensures HammingDistance(a, b) == |Differing(a, b, n)|
  {
    if n > 0 {
      var half, half' := a / 2, b / 2;
      assert half < Pow2(n - 1) && half' < Pow2(n - 1);
      HammingByBits(a, b);
      assert (a % 2 + b % 2) % 2 == if a % 2 != b % 2 then 1 else 0;
      hide *;
      HammingIsDiffering(half, half', n - 1);
      DifferingCount(a, b, n, half, half');
    }
  }

  /** The distance is the number of binary places in which the two differ. */
  lemma HammingIsCount(a: nat, b: nat, n: nat)
    requires a < Pow2(n) && b < Pow2(n)
    ensures HammingDistance(a, b) == |set i: nat | i < n && a / Pow2(i) % 2 != b / Pow2(i) % 2|
  {
    HammingIsDiffering(a, b, n);
    assert Differing(a, b, n) == set i: nat | i < n && a / Pow2(i) % 2 != b / Pow2(i) % 2;
    hide *;
  }

  lemma NextPlace(a: nat, i: nat)
    requires i > 0
    ensures a / Pow2(i) == a / 2 / Pow2(i - 1)
  {
    DoubleDivision(a, Pow2(i - 1));
  }

  /** A band is a slice of `size` binary digits. */
  lemma BandIsSlice(fingerprint: nat, b: nat, size: nat)
    ensures Band(fingerprint, b, size) == fingerprint / Pow2(b * size) % Pow2(size)
  {
    ShiftIsDivision(fingerprint, b * size);
    ShiftIsDivision(Shr(fingerprint, b * size), size);
  }

  /** Cutting off `size` low bits loses at least one differing bit if those bits differ. */
  lemma {:induction false} HammingSplits(f: nat, g: nat, size: nat)
    ensures HammingDistance(f, g) >= HammingDistance(Shr(f, size), Shr(g, size))
                                     + if Low(f, size) == Low(g, size) then 0 else 1
  {
    if size > 0 {
      HammingByBits(f, g);
      hide HammingDistance;
      HammingSplits(f / 2, g / 2, size - 1);
    }
  }

  lemma BandShifts(f: nat, b: nat, size: nat)
    ensures Band(f, b + 1, size) == Band(Shr(f, size), b, size)
  {
    assert (b + 1) * size == size + b * size;
    ShrAdds(f, size, b * size);
  }

  /** Each differing bit spoils at most one band, so fingerprints without a common band differ in
      at least as many bits as there are bands. */
  lemma {:induction false} SpoiledBands(f: nat, g: nat, bands: nat, size: nat)
    requires !SharesBand(f, g, bands, size)
    ensures HammingDistance(f, g) >= bands
    decreases bands
  {
    if bands > 0 {
      var f', g' := Shr(f, size), Shr(g, size);
      forall b: nat | b < bands - 1
        ensures Band(f', b, size) != Band(g', b, size)
      {
        BandShifts(f, b, size);
        BandShifts(g, b, size);
        assert b + 1 < bands;
      }
      SpoiledBands(f', g', bands - 1, size);
      HammingSplits(f, g, size);
      assert 0 * size == 0;
      assert Band(f, 0, size) != Band(g, 0, size);
    }
  }

  /** One bit set in each band. */
  function Spread(bands: nat, size: nat): nat {
    if bands == 0 then 0 else 1 + Shl(Spread(bands - 1, size), size)
  }

  lemma {:induction false} ShlUndone(x: nat, size: nat)
    requires size > 0
    ensures Shr(1 + Shl(x, size), size) == x && Low(1 + Shl(x, size), size) == 1
    ensures HammingDistance(0, 1 + Shl(x, size)) == 1 + HammingDistance(0, x)
  {
    HammingByBits(0, 1 + Shl(x, size));
    hide HammingDistance;
    assert Shl(x, size) == 2 * Shl(x, size - 1);
    assert (1 + Shl(x, size)) / 2 == Shl(x, size - 1);
    ShlShifted(x, size - 1);
  }

  lemma {:induction false} ShlShifted(x: nat, k: nat)
    ensures Shr(Shl(x, k), k) == x && Low(Shl(x, k), k) == 0
    ensures HammingDistance(0, Shl(x, k)) == HammingDistance(0, x)
  {
    if k > 0 {
      HammingByBits(0, Shl(x, k));
      ShlShifted(x, k - 1);
    }
  }

  lemma {:induction false} SpreadHitsEveryBand(bands: nat, size: nat)
    requires size > 0
    ensures HammingDistance(0, Spread(bands, size)) == bands && !SharesBand(0, Spread(bands, size), bands, size)
  {
    if bands > 0 {
      var x := Spread(bands - 1, size);
      SpreadHitsEveryBand(bands - 1, size);
      ShlUndone(x, size);
      forall b: nat | b < bands
        ensures Band(0, b, size) != Band(Spread(bands, size), b, size)
      {
        ZeroBand(b, size);
        if b == 0 {
          assert 0 * size == 0;
        } else {
          BandShifts(Spread(bands, size), b - 1, size);
          ZeroBand(b - 1, size);
          assert Band(0, b - 1, size) != Band(x, b - 1, size);
        }
      }
    }
  }

  lemma ZeroBand(b: nat, size: nat)
    ensures Band(0, b, size) == 0
  {
    ZeroBits(b * size);
    ZeroBits(size);
  }

  lemma {:induction false} ZeroBits(k: nat)
    ensures Shr(0, k) == 0 && Low(0, k) == 0
  {
    if k > 0 {
      ZeroBits(k - 1);
    }
  }

  /** Every pair within the threshold shares a band. */
  ghost predicate NoPairMissed(bands: nat, bits: nat, threshold: int)
    requires bands > 0
  {
    forall f: nat, g: nat :: HammingDistance(f, g) <= threshold ==> SharesBand(f, g, bands, bits / bands)
  }

  /** When the buckets miss nothing: fewer tolerated bits than bands, or bands of no bits at all, which
      put every fingerprint into the same buckets. */
  predicate Lossless(bands: nat, bits: nat, threshold: int)
    requires bands > 0
  {
    threshold < bands || bits < bands
  }

  lemma NoPairMissedIff(bands: nat, bits: nat, threshold: int)
    requires bands > 0
    ensures NoPairMissed(bands, bits, threshold) <==> Lossless(bands, bits, threshold)
    ensures Lossless(bands, bits, threshold) <==> threshold < bands || bits < bands
  {
    var size := bits / bands;
    if bits < bands {
      assert size == 0;
      forall f: nat, g: nat
        ensures SharesBand(f, g, bands, size)
      {
        assert Band(f, 0, size) == Band(g, 0, size);
      }
    } else if threshold < bands {
      forall f: nat, g: nat | HammingDistance(f, g) <= threshold
        ensures SharesBand(f, g, bands, size)
      {
        if !SharesBand(f, g, bands, size) {
          SpoiledBands(f, g, bands, size);
        }
      }
    } else {
      assert bits == bands * size + bits % bands;
      SpreadHitsEveryBand(bands, size);
    }
  }

  // ---------------------------------------------------------------- the index

  /** The fingerprints of one bucket, in the order they were registered. */
  function InBucket(registered: seq<nat>, b: nat, value: nat, size: nat): (r: seq<nat>)
    ensures forall g :: g in r <==> g in registered && Band(g, b, size) == value
  {
    if registered == [] then []
    else
      var g := registered[|registered| - 1];
      var before := InBucket(registered[..|registered| - 1], b, value, size);
      if Band(g, b, size) == value then before + [g] else before
  }

  lemma SharesNextBand(f: nat, g: nat, b: nat, size: nat)
    ensures SharesBand(f, g, b + 1, size) <==> SharesBand(f, g, b, size) || Band(f, b, size) == Band(g, b, size)
  {
  }

  /** The loop that verifies the candidates exactly. */
  method AnyWithin(fingerprint: nat, candidates: set<nat>, threshold: int) returns (found: bool)
    ensures found <==> exists g :: g in candidates && HammingDistance(fingerprint, g) <= threshold
  {
    var rest := candidates;
    while rest != {}
      invariant rest <= candidates
      invariant forall g :: g in candidates - rest ==> HammingDistance(fingerprint, g) > threshold
    {
      var other :| other in rest;
      if HammingDistance(fingerprint, other) <= threshold {
        return true;
      }
      rest := rest - {other};
    }
    return false;
  }

  ghost predicate Apart(registered: seq<nat>, threshold: int) {
    forall i, j :: 0 <= i < j < |registered| ==> HammingDistance(registered[j], registered[i]) > threshold
  }

  lemma ApartGrows(registered: seq<nat>, g: nat, threshold: int)
    requires Apart(registered, threshold) && forall f :: f in registered ==> HammingDistance(g, f) > threshold
    ensures Apart(registered + [g], threshold)
  {
    hide HammingDistance;
  }

  class InMemoryContentDedup {
    const bands: nat
    const bits: nat
    const threshold: int
    var buckets: map<(nat, nat), seq<nat>>
    ghost var registered: seq<nat>

    function Bucket(b: nat, value: nat): seq<nat>
      reads this
    {
      if (b, value) in buckets then buckets[(b, value)] else []
    }

    /** Each bucket holds the registered fingerprints with its band value; when the buckets miss
        nothing, registered fingerprints are far apart. */
    ghost predicate Valid()
      reads this
    {
      && bands > 0
      && (forall b: nat, value: nat :: b < bands ==> Bucket(b, value) == InBucket(registered, b, value, bits / bands))
      && (Lossless(bands, bits, threshold) ==> Apart(registered, threshold))
    }

    /** Dividing the bits by zero bands raises in the source. */
    constructor (bands: nat, bits: nat, threshold: int)
      requires bands > 0
      ensures Valid() && registered == []
      ensures this.bands == bands && this.bits == bits && this.threshold == threshold
    {
      this.bands, this.bits, this.threshold := bands, bits, threshold;
      buckets, registered := map[], [];
    }

    /** A duplicate is always a genuine near-match, and with a lossless index it is found whenever a
        linear scan of the registered fingerprints would find one. */
    method IsDuplicate(fingerprint: nat) returns (duplicate: bool)
      requires Valid()
      modifies this
      ensures Valid()
      ensures duplicate <==>
              exists g :: g in old(registered) && HammingDistance(fingerprint, g) <= threshold
                          && SharesBand(fingerprint, g, bands, bits / bands)
      ensures (threshold < bands || bits < bands) && !duplicate ==>
                forall g :: g in old(registered) ==> HammingDistance(fingerprint, g) > threshold
      ensures registered == old(registered) + (if duplicate then [] else [fingerprint])
      ensures duplicate ==> buckets == old(buckets)
    {
      hide InBucket, HammingDistance, Band, Lossless;
      var values := BandValues(fingerprint, bands, bits);
      var candidates := Candidates(fingerprint, values);
      var near := AnyWithin(fingerprint, candidates, threshold);
      NoPairMissedIff(bands, bits, threshold);
      if near {
        return true;
      }
      Register(fingerprint, values);
      return false;
    }

    /** The loop that collects the fingerprints of the matching buckets. */
    method Candidates(fingerprint: nat, values: seq<nat>) returns (candidates: set<nat>)
      requires Valid() && values == BandValues(fingerprint, bands, bits)
      ensures forall g :: g in candidates <==> g in registered && SharesBand(fingerprint, g, bands, bits / bands)
    {
      hide InBucket, HammingDistance, Band, Lossless;
      candidates := {};
      for b := 0 to bands
        invariant forall g :: g in candidates <==> g in registered && SharesBand(fingerprint, g, b, bits / bands)
      {
        var more := Bucket(b, values[b]);
        candidates := candidates + set g | g in more;
        forall g: nat
          ensures SharesBand(fingerprint, g, b + 1, bits / bands) <==>
                    SharesBand(fingerprint, g, b, bits / bands)
                    || Band(fingerprint, b, bits / bands) == Band(g, b, bits / bands)
        {
          SharesNextBand(fingerprint, g, b, bits / bands);
        }
      }
    }

    /** Files the fingerprint under each of its band values. */
    method Register(fingerprint: nat, values: seq<nat>)
      requires Valid() && values == BandValues(fingerprint, bands, bits)
      requires Lossless(bands, bits, threshold) ==>
                 forall g :: g in registered ==> HammingDistance(fingerprint, g) > threshold
      modifies this
      ensures Valid() && registered == old(registered) + [fingerprint]
    {
      if Lossless(bands, bits, threshold) {
        ApartGrows(registered, fingerprint, threshold);
      }
      hide InBucket, Lossless, HammingDistance, Band, Apart;
      FileUnder(fingerprint, values);
      registered := registered + [fingerprint];
      forall c: nat, value: nat | c < bands
        ensures Bucket(c, value) == InBucket(registered, c, value, bits / bands)
      {
        InBucketGrows(old(registered), fingerprint, c, value, bits / bands);
      }
    }

    /** The loop over the bands. */
    method FileUnder(fingerprint: nat, values: seq<nat>)
      requires |values| == bands
      modifies this`buckets
      ensures forall c: nat, value: nat :: c < bands ==>
                Bucket(c, value) == old(Bucket(c, value)) + (if value == values[c] then [fingerprint] else [])
    {
      for b := 0 to bands
        invariant forall c: nat, value: nat :: c < bands ==>
                    Bucket(c, value)
                        == old(Bucket(c, value)) + (if c < b && value == values[c] then [fingerprint] else [])
      {
        buckets := buckets[(b, values[b]) := Bucket(b, values[b]) + [fingerprint]];
      }
    }
  }

  lemma InBucketGrows(registered: seq<nat>, g: nat, b: nat, value: nat, size: nat)
    ensures InBucket(registered + [g], b, value, size)
         == InBucket(registered, b, value, size) + (if value == Band(g, b, size) then [g] else [])
  {
  }
}
