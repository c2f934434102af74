/** Shared vocabulary: per-role replica vectors, all indexed by the same role index. */
module Roles {
  datatype Option<+T> = None | Some(value: T)

  function Min(a: int, b: int): int {
    if a <= b then a else b
  }

  function Max(a: int, b: int): int {
    if a >= b then a else b
  }

  /** Integer difference of two counts; it may be negative. */
  function Minus(a: int, b: int): int {
    a - b
  }

  /** The total of a replica vector (replicaSum). */
  function Sum(replicas: seq<nat>): nat {
    if |replicas| == 0 then 0 else Sum(replicas[..|replicas| - 1]) + replicas[|replicas| - 1]
  }

  /** `a` is below `b` in every role. */
  ghost predicate Below(a: seq<int>, b: seq<int>) {
    |a| == |b| && forall i | 0 <= i < |a| :: a[i] <= b[i]
  }

  lemma {:induction false} SumBelow(a: seq<nat>, b: seq<nat>)
    requires Below(a, b)
    ensures Sum(a) <= Sum(b)
    ensures a != b ==> Sum(a) < Sum(b)
    decreases |a|
  {
    if |a| > 0 {
      var n := |a| - 1;
      SumBelow(a[..n], b[..n]);
      assert a == a[..n] + [a[n]] && b == b[..n] + [b[n]];
    }
  }

  lemma {:induction false} SumZero(a: seq<nat>)
    ensures Sum(a) == 0 <==> forall i | 0 <= i < |a| :: a[i] == 0
    decreases |a|
  {
    if |a| > 0 {
      var n := |a| - 1;
      SumZero(a[..n]);
      assert forall i | 0 <= i < n :: a[..n][i] == a[i];
    }
  }

  ghost predicate Unrepeated(values: seq<nat>) {
    forall i, j | 0 <= i < j < |values| :: values[i] != values[j]
  }

  lemma SubsetSize<T>(a: set<T>, b: set<T>)
    requires a <= b
    ensures |a| <= |b|
  {
    assert b == a + (b - a);
  }
}
