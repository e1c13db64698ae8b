/** When the k positions of a key are different: the stride of double hashing. */
module BloomIndices {
  import opened Bits
  import opened Bloom

  predicate Divides(d: int, n: int)
    requires d > 0
  {
    n % d == 0
  }

  // ---------------------------------------------------------------- division

  lemma DividesTimes(d: int, c: int)
    requires d > 0
    ensures Divides(d, c * d)
  {
    DivisionUnique(c * d, d, c, 0);
  }

  lemma Witness(d: int, n: int) returns (q: int)
    requires d > 0 && Divides(d, n)
    ensures n == q * d
  {
    q := n / d;
    assert n / d * d + n % d == n;
  }

  /** Whatever divides two numbers divides their combinations. */
  lemma DividesCombination(d: int, a: int, b: int, x: int, y: int)
    requires d > 0 && Divides(d, a) && Divides(d, b)
    ensures Divides(d, x * a + y * b)
  {
    var p := Witness(d, a);
    var q := Witness(d, b);
    assert x * (p * d) == (x * p) * d && y * (q * d) == (y * q) * d;
    assert (x * p + y * q) * d == (x * p) * d + (y * q) * d;
    DividesTimes(d, x * p + y * q);
  }

  // ---------------------------------------------------------------- greatest common divisors

  function Gcd(a: nat, b: nat): (g: nat)
    requires a > 0 || b > 0
    ensures g > 0
    decreases b
  {
    if b == 0 then a else Gcd(b, a % b)
  }

  lemma {:induction false} GcdDivides(a: nat, b: nat)
    requires a > 0 || b > 0
    ensures Divides(Gcd(a, b), a) && Divides(Gcd(a, b), b)
    decreases b
  {
    var g := Gcd(a, b);
    if b == 0 {
      DividesTimes(a, 1);
      DividesTimes(a, 0);
    } else {
      GcdDivides(b, a % b);
      DividesCombination(g, b, a % b, a / b, 1);
      assert a / b * b + 1 * (a % b) == a;
    }
  }

  lemma Recombine(a: int, b: int, q: int, r: int, u: int, v: int)
    requires a == q * b + r
    ensures v * a + (u - v * q) * b == u * b + v * r
  {
    assert v * (q * b + r) == v * (q * b) + v * r;
    assert (u - v * q) * b == u * b - v * q * b;
    assert v * q * b == v * (q * b);
  }

  /** Bezout: the gcd is a combination. */
  lemma {:induction false} GcdCombines(a: nat, b: nat) returns (x: int, y: int)
    requires a > 0 || b > 0
    ensures x * a + y * b == Gcd(a, b)
    decreases b
  {
    if b == 0 {
      x, y := 1, 0;
    } else {
      var u, v := GcdCombines(b, a % b);
      x, y := v, u - v * (a / b);
      Recombine(a, b, a / b, a % b, u, v);
    }
  }

  /** The number of steps after which a walk with stride `h` round a circle of `m` is back at its start. */
  function Period(h: nat, m: nat): nat
    requires m > 0
  {
    m / Gcd(h, m)
  }

  lemma PeriodTimesGcd(h: nat, m: nat)
    requires m > 0
    ensures Period(h, m) > 0 && m == Period(h, m) * Gcd(h, m)
  {
    var g, p := Gcd(h, m), Period(h, m);
    GcdDivides(h, m);
    assert m / g * g + m % g == m;
    assert 0 * g == 0;
    MultiplesApart(p, g);
  }

  lemma PeriodCloses(h: nat, m: nat, d: int)
    requires m > 0 && Period(h, m) > 0 && Divides(Period(h, m), d)
    ensures Divides(m, d * h)
  {
    var g, p := Gcd(h, m), Period(h, m);
    PeriodTimesGcd(h, m);
    GcdDivides(h, m);
    var h' := Witness(g, h);
    var c := Witness(p, d);
    Rearrange(c, p, h', g);
    DividesTimes(m, c * h');
  }

  lemma Rearrange(c: int, p: int, h: int, g: int)
    ensures (c * p) * (h * g) == (c * h) * (p * g)
  {
    assert (c * p) * (h * g) == c * (p * (h * g));
    assert p * (h * g) == h * (p * g);
  }

  lemma ClosedByPeriod(h: nat, m: nat, d: int)
    requires m > 0 && Period(h, m) > 0 && Divides(m, d * h)
    ensures Divides(Period(h, m), d)
  {
    var g, p := Gcd(h, m), Period(h, m);
    PeriodTimesGcd(h, m);
    var x, y := GcdCombines(h, m);
    DividesTimes(m, d);
    DividesCombination(m, d * h, d * m, x, y);
    Factor(d, x, h, y, m);
    var c := Witness(m, d * g);
    assert c * (p * g) == (c * p) * g;
    CancelRight(d, c * p, g);
    DividesTimes(p, c);
  }

  lemma Factor(d: int, x: int, h: int, y: int, m: int)
    ensures x * (d * h) + y * (d * m) == d * (x * h + y * m)
  {
    assert x * (d * h) == d * (x * h) && y * (d * m) == d * (y * m);
  }

  /** `d` steps of stride `h` close the circle exactly when the period divides `d`. */
  lemma ClosesIff(h: nat, m: nat, d: int)
    requires m > 0
    ensures Period(h, m) > 0
    ensures Divides(m, d * h) <==> Divides(Period(h, m), d)
  {
    PeriodTimesGcd(h, m);
    if Divides(Period(h, m), d) {
      PeriodCloses(h, m, d);
    }
    if Divides(m, d * h) {
      ClosedByPeriod(h, m, d);
    }
  }

  lemma CancelRight(a: int, b: int, g: int)
    requires g > 0 && a * g == b * g
    ensures a == b
  {
    assert (a - b) * g == 0;
    MultiplesApart(a - b, g);
  }

  lemma SameRemainder(a: int, b: int, m: int)
    requires m > 0
    ensures a % m == b % m <==> Divides(m, b - a)
  {
    assert a / m * m + a % m == a && b / m * m + b % m == b;
    if a % m == b % m {
      assert b - a == (b / m - a / m) * m;
      DividesTimes(m, b / m - a / m);
    }
    if Divides(m, b - a) {
      var q := Witness(m, b - a);
      assert b == (a / m + q) * m + a % m;
      DivisionUnique(b, m, a / m + q, a % m);
    }
  }

  ghost predicate AllDifferent(h1: nat, h2: nat, m: nat, k: nat)
    requires m > 0
  {
    forall i: nat, j: nat :: i < j < k ==> Index(h1, h2, m, i) != Index(h1, h2, m, j)
  }

  lemma IndexesMeetIff(h1: nat, h2: nat, m: nat, i: nat, j: nat)
    requires m > 0 && i < j
    ensures Period(h2, m) > 0
    ensures Index(h1, h2, m, i) == Index(h1, h2, m, j) <==> Divides(Period(h2, m), j - i)
  {
    SameRemainder(h1 + i * h2, h1 + j * h2, m);
    assert (h1 + j * h2) - (h1 + i * h2) == (j - i) * h2;
    ClosesIff(h2, m, j - i);
  }

  /** The `k` positions of a key are pairwise different exactly when `k` does not exceed the period. */
  lemma AllDifferentIff(h1: nat, h2: nat, m: nat, k: nat)
    requires m > 0
    ensures AllDifferent(h1, h2, m, k) <==> k <= Period(h2, m)
  {
    var p := Period(h2, m);
    ClosesIff(h2, m, 0);
    if k <= p {
      forall i: nat, j: nat | i < j < k
        ensures Index(h1, h2, m, i) != Index(h1, h2, m, j)
      {
        IndexesMeetIff(h1, h2, m, i, j);
        DivisionUnique(j - i, p, 0, j - i);
      }
    } else {
      IndexesMeetIff(h1, h2, m, 0, p);
      DividesTimes(p, 1);
    }
  }

  /** With a stride coprime to `m` all positions differ as long as there are at most `m`. */
  lemma CoprimeStride(h1: nat, h2: nat, m: nat, k: nat)
    requires m > 0 && Gcd(h2, m) == 1
    ensures AllDifferent(h1, h2, m, k) <==> k <= m
  {
    AllDifferentIff(h1, h2, m, k);
  }

  /** A divisor of a power of two that is odd is one. */
  lemma {:induction false} OddDivisorOfPow2(g: nat, e: nat)
    requires g > 0 && g % 2 == 1 && Divides(g, Pow2(e))
    ensures g == 1
  {
    var q := Witness(g, Pow2(e));
    if e == 0 {
      MultiplesApart(q, g);
      assert q == 0 ==> q * g == 0;
    } else {
      OddTimes(q, g);
      Halve(q, g);
      DividesTimes(g, q / 2);
      OddDivisorOfPow2(g, e - 1);
    }
  }

  lemma Halve(q: int, g: nat)
    requires q % 2 == 0
    ensures q * g == 2 * (q / 2 * g)
  {
    var half := q / 2;
    assert q == 2 * half;
    assert 2 * half * g == 2 * (half * g);
  }

  lemma OddTimes(q: int, g: nat)
    requires g % 2 == 1 && q * g % 2 == 0
    ensures q % 2 == 0
  {
    var a, b := q / 2, g / 2;
    assert q * g == (2 * a + q % 2) * (2 * b + 1) == 2 * (a * (2 * b + 1) + q % 2 * b) + q % 2;
  }

  lemma OddFactor(q: int, g: nat)
    requires q * g % 2 == 1
    ensures g % 2 == 1
  {
    var b := g / 2;
    assert q * g == q * (2 * b + g % 2) == 2 * (q * b) + q * (g % 2);
  }

  lemma OddCoprimeToPow2(h2: nat, e: nat)
    requires h2 % 2 == 1
    ensures Gcd(h2, Pow2(e)) == 1
  {
    hide Gcd, Pow2;
    var g := Gcd(h2, Pow2(e));
    GcdDivides(h2, Pow2(e));
    var q := Witness(g, h2);
    OddFactor(q, g);
    OddDivisorOfPow2(g, e);
  }

  /** The `| 1` of the source makes every stride coprime to a power of two. */
  lemma OddStrideOnPowerOfTwo(h: Hashes, key: string, e: nat, k: nat)
    ensures AllDifferent(h.first(key), Stride(h, key), Pow2(e), k) <==> k <= Pow2(e)
  {
    OddCoprimeToPow2(Stride(h, key), e);
    CoprimeStride(h.first(key), Stride(h, key), Pow2(e), k);
  }

  /** With pairwise different positions a key touches exactly `k` bits. */
  lemma DifferentIndicesFill(h: Hashes, key: string, m: nat, k: nat)
    requires m > 0 && AllDifferent(h.first(key), Stride(h, key), m, k)
    ensures |IndexSet(h, key, m, k)| == k
  {
    DistinctMembers(Indices(h, key, m, k));
  }

  lemma {:induction false} DistinctMembers(s: seq<nat>)
    requires forall i, j :: 0 <= i < j < |s| ==> s[i] != s[j]
    ensures |Members(s)| == |s|
  {
    if s != [] {
      var n := |s| - 1;
      DistinctMembers(s[..n]);
      assert s[n] !in Members(s[..n]);
      hide Members;
      MembersPrefix(s, n);
      assert s[..n + 1] == s;
    }
  }
}
