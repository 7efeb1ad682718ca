/** Counting facts about sets of processes. */
module Quorums {
  lemma {:induction false} SubsetSize<T>(a: set<T>, b: set<T>)
    requires a <= b
    ensures |a| <= |b| && (a < b ==> |a| < |b|)
  {
    if a != {} {
      var x :| x in a;
      SubsetSize(a - {x}, b - {x});
      assert a < b ==> a - {x} < b - {x};
    }
  }

  /** The processes 0, ..., n-1. */
  function Processes(n: nat): (r: set<nat>)
    ensures forall i: nat :: i in r <==> i < n
    ensures |r| == n
  {
    if n == 0 then {} else Processes(n - 1) + {n - 1}
  }

  /**
   * Two sets of processes that together outnumber the committee and the faulty set share a process that is not faulty.
   */
  lemma Intersect(n: nat, a: set<nat>, b: set<nat>, faulty: set<nat>) returns (x: nat)
    requires a <= Processes(n) && b <= Processes(n)
    requires |a| + |b| > n + |faulty|
    ensures x in a && x in b && x !in faulty
  {
    SubsetSize(a + b, Processes(n));
    assert |a + b| == |a| + |b| - |a * b|;
    if a * b <= faulty {
      SubsetSize(a * b, faulty);
    }
    x :| x in a * b && x !in faulty;
  }
}
