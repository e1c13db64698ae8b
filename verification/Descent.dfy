/** Vectors of natural numbers cannot go down for ever. */
module Descent {

  /** At some index less, and at the earlier ones no more. */
  ghost predicate LexLess(a: seq<nat>, b: seq<nat>)
    requires |a| == |b|
  {
    exists k :: 0 <= k < |a| && a[k] < b[k] && forall m :: 0 <= m < k ==> a[m] <= b[m]
  }

  lemma LexIntro(a: seq<nat>, b: seq<nat>, k: nat)
    requires |a| == |b| && k < |a| && forall m :: 0 <= m <= k ==> a[m] <= b[m] && (m == k ==> a[m] < b[m])
    ensures LexLess(a, b)
  {
    assert a[k] < b[k] && forall m :: 0 <= m < k ==> a[m] <= b[m];
  }

  lemma LexTail(a: seq<nat>, b: seq<nat>)
    requires |a| == |b| > 0 && LexLess(a, b)
    ensures a[0] < b[0] || (a[0] <= b[0] && LexLess(a[1..], b[1..]))
  {
    var k :| 0 <= k < |a| && a[k] < b[k] && forall m :: 0 <= m < k ==> a[m] <= b[m];
    if k > 0 {
      assert a[1..][k - 1] < b[1..][k - 1];
      assert forall m :: 0 <= m < k - 1 ==> a[1..][m] == a[m + 1] && b[1..][m] == b[m + 1];
    }
  }

  ghost predicate OfLength(f: nat -> seq<nat>, n: nat) {
    forall j :: |f(j)| == n
  }

  function Tails(f: nat -> seq<nat>): nat -> seq<nat> {
    j => if f(j) == [] then [] else f(j)[1..]
  }

  /** If the head of the vector has risen, some step was not a decrease. */
  lemma {:induction false} HeadRises(f: nat -> seq<nat>, n: nat, i: nat, last: nat) returns (j: nat)
    requires OfLength(f, n) && n > 0 && i <= last && f(last)[0] > f(i)[0]
    ensures i <= j < last && !LexLess(f(j + 1), f(j))
    decreases last
  {
    if f(last)[0] > f(last - 1)[0] {
      j := last - 1;
      if LexLess(f(last), f(j)) {
        LexTail(f(last), f(j));
      }
    } else {
      j := HeadRises(f, n, i, last - 1);
    }
  }

  /** No sequence of vectors of one length goes down for ever. */
  lemma {:induction false} NoEndlessDescent(f: nat -> seq<nat>, n: nat, i: nat) returns (j: nat)
    requires OfLength(f, n)
    ensures j >= i && !LexLess(f(j + 1), f(j))
    decreases n, if n == 0 then 0 else f(i)[0]
  {
    if n == 0 {
      return i;
    }
    j := NoEndlessDescent(Tails(f), n - 1, i);
    hide LexLess;
    if LexLess(f(j + 1), f(j)) {
      LexTail(f(j + 1), f(j));
      if f(j)[0] > f(i)[0] {
        j := HeadRises(f, n, i, j);
      } else {
        j := NoEndlessDescent(f, n, j + 1);
      }
    }
  }
}
