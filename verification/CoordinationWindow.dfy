/**
 * The fractional coordination window: no role may run further ahead of the
 * least-advanced role than one replica of the smallest role. Fractions are
 * compared by cross-multiplication, as the controller does.
 */
module CoordinationWindow {
  import opened Roles

  datatype Window = Window(least: nat, target: nat, denominator: nat) {

    /** Accounts for one role; roles with no replicas take no part. */
    function IncludeProgress(total: nat, progress: nat): Window {
      if total == 0 then
        this
      else
        var d := if denominator == 0 || total < denominator then total else denominator;
        if target == 0 || progress * target < least * total then Window(progress, total, d)
        else Window(least, target, d)
    }

    /** The least-ready fraction as whole replicas of a role of the given size. */
    function ReadyCredit(replicas: nat): nat {
      if target == 0 then 0 else replicas * Min(least, target) / target
    }
  }

  /**
   * The whole-replica edge of the window. The product of three replica counts
   * is avoided by splitting the lower edge into quotient and remainder.
   */
  function MaxProgressWithin(w: Window, replicas: nat): nat
    requires w.target > 0 && w.denominator > 0
  {
    if replicas == 0 then
      0
    else
      var scaled := replicas * w.least;
      PositiveProduct(w.target, w.denominator);
      NonNegativeEdge(scaled, w.target, w.denominator, replicas);
      Min(replicas,
          scaled / w.target + (scaled % w.target * w.denominator + replicas * w.target) / (w.target * w.denominator))
  }

  const EMPTY_WINDOW := Window(0, 0, 0)

  function WindowFor(counts: seq<nat>, progress: seq<nat>): Window
    requires |counts| == |progress|
  {
    if |counts| == 0 then
      EMPTY_WINDOW
    else
      var n := |counts| - 1;
      WindowFor(counts[..n], progress[..n]).IncludeProgress(counts[n], progress[n])
  }

  /** What a window says about the progress vector it was computed from. */
  ghost predicate Describes(w: Window, counts: seq<nat>, progress: seq<nat>)
    requires |counts| == |progress|
  {
    if w.target == 0 then
      w == EMPTY_WINDOW && forall i | 0 <= i < |counts| :: counts[i] == 0
    else
      && (exists k | 0 <= k < |counts| :: counts[k] == w.target && progress[k] == w.least)
      && (exists k | 0 <= k < |counts| :: counts[k] == w.denominator)
      && w.denominator > 0
      && forall i | 0 <= i < |counts| && counts[i] > 0 ::
           w.denominator <= counts[i] && w.least * counts[i] <= progress[i] * w.target
  }

  lemma {:induction false} WindowDescribes(counts: seq<nat>, progress: seq<nat>)
    requires |counts| == |progress|
    ensures Describes(WindowFor(counts, progress), counts, progress)
    decreases |counts|
  {
    if |counts| > 0 {
      var n := |counts| - 1;
      var before := WindowFor(counts[..n], progress[..n]);
      WindowDescribes(counts[..n], progress[..n]);
      var w := before.IncludeProgress(counts[n], progress[n]);
      assert forall i | 0 <= i < n :: counts[..n][i] == counts[i] && progress[..n][i] == progress[i];
      if counts[n] > 0 {
        if before.target == 0 {
          assert counts[n] == w.target && progress[n] == w.least;
        } else {
          var k :| 0 <= k < n && counts[k] == before.target && progress[k] == before.least;
          var j :| 0 <= j < n && counts[j] == before.denominator;
          assert counts[if counts[n] < before.denominator then n else j] == w.denominator;
          var lead := if progress[n] * before.target < before.least * counts[n] then n else k;
          assert counts[lead] == w.target && progress[lead] == w.least;
          forall i | 0 <= i < |counts| && counts[i] > 0
            ensures w.least * counts[i] <= progress[i] * w.target
          {
            if lead == n && i < n {
              LessThenAtMost(progress[n], counts[n], before.least, before.target, progress[i], counts[i]);
            }
          }
        }
      }
    }
  }

  /** The accumulating loop, over a window that each role updates in turn. */
  method CoordinationWindowForProgress(counts: seq<nat>, progress: seq<nat>) returns (w: Window, ok: bool)
    requires |counts| == |progress|
    ensures w == WindowFor(counts, progress)
    ensures Describes(w, counts, progress)
    ensures ok <==> exists i | 0 <= i < |counts| :: counts[i] > 0
  {
    w := EMPTY_WINDOW;
    for i := 0 to |counts|
      invariant w == WindowFor(counts[..i], progress[..i])
    {
      w := w.IncludeProgress(counts[i], progress[i]);
      assert counts[..i + 1][..i] == counts[..i] && progress[..i + 1][..i] == progress[..i];
    }
    assert counts[..|counts|] == counts && progress[..|counts|] == progress;
    WindowDescribes(counts, progress);
    ok := w.target > 0;
  }

  // --- Rational arithmetic by cross-multiplication ---

  lemma PositiveProduct(a: int, b: int)
    requires a > 0 && b > 0
    ensures a * b > 0
  {}

  lemma NonNegativeProduct(a: int, b: int)
    requires a >= 0 && b >= 0
    ensures a * b >= 0
  {}

  lemma MulMonotone(a: int, b: int, c: int)
    requires a <= b && c >= 0
    ensures a * c <= b * c
  {}

  lemma MulStrict(a: int, b: int, c: int)
    requires a < b && c > 0
    ensures a * c < b * c
  {}

  lemma CancelAtMost(a: int, b: int, c: int)
    requires c > 0 && a * c <= b * c
    ensures a <= b
  {
    if b < a {
      MulStrict(b, a, c);
    }
  }

  /** a/t <= b/s and b/s <= c/r give a/t <= c/r. */
  lemma FractionTransitive(a: int, t: int, b: int, s: int, c: int, r: int)
    requires t > 0 && s > 0 && r > 0
    requires a * s <= b * t && b * r <= c * s
    ensures a * r <= c * t
  {
    MulMonotone(a * s, b * t, r);
    MulMonotone(b * r, c * s, t);
    assert (a * r) * s == (a * s) * r;
    assert (b * t) * r == (b * r) * t;
    assert (c * t) * s == (c * s) * t;
    CancelAtMost(a * r, c * t, s);
  }

  /** a/t < b/s and b/s <= c/r give a/t < c/r. */
  lemma LessThenAtMost(a: int, t: int, b: int, s: int, c: int, r: int)
    requires t > 0 && s > 0 && r > 0
    requires a * s < b * t && b * r <= c * s
    ensures a * r < c * t
  {
    MulStrict(a * s, b * t, r);
    MulMonotone(b * r, c * s, t);
    assert (a * r) * s == (a * s) * r;
    assert (b * t) * r == (b * r) * t;
    assert (c * t) * s == (c * s) * t;
    if c * t <= a * r {
      MulMonotone(c * t, a * r, s);
    }
  }

  /**
   * A count is within the window exactly when its fraction of `replicas` is at
   * most `least/target + 1/denominator`: the edge the code computes is the
   * floor of that rational, capped at the role size.
   */
  lemma WithinWindowIff(w: Window, replicas: nat, q: int)
    requires w.target > 0 && w.denominator > 0
    ensures q <= MaxProgressWithin(w, replicas) <==>
            q <= replicas && q * (w.target * w.denominator) <= replicas * (w.least * w.denominator + w.target)
  {
    if replicas == 0 {
      PositiveProduct(w.target, w.denominator);
      if q <= 0 {
        MulMonotone(q, 0, w.target * w.denominator);
      }
    } else {
      var t, d, scaled := w.target, w.denominator, replicas * w.least;
      var whole, rest := scaled / t, scaled % t;
      PositiveProduct(t, d);
      var numerator := rest * d + replicas * t;
      assert whole * t + rest == scaled;
      assert replicas * (w.least * d + t) == whole * (t * d) + numerator by {
        assert replicas * (w.least * d + t) == scaled * d + replicas * t;
        assert (whole * t + rest) * d == whole * (t * d) + rest * d;
      }
      AtMostQuotientIff(q - whole, numerator, t * d);
      assert (q - whole) * (t * d) == q * (t * d) - whole * (t * d);
    }
  }

  /** The edge is the last count that is within the window. */
  lemma EdgeIs(w: Window, replicas: nat, edge: nat)
    requires w.target > 0 && w.denominator > 0 && edge <= replicas
    requires edge * (w.target * w.denominator) <= replicas * (w.least * w.denominator + w.target)
    requires edge == replicas ||
             (edge + 1) * (w.target * w.denominator) > replicas * (w.least * w.denominator + w.target)
    ensures MaxProgressWithin(w, replicas) == edge
  {
    hide MaxProgressWithin;
    WithinWindowIff(w, replicas, edge);
    WithinWindowIff(w, replicas, edge + 1);
  }

  lemma AtMostQuotientIff(q: int, a: int, b: int)
    requires b > 0
    ensures q <= a / b <==> q * b <= a
  {
    assert a == (a / b) * b + a % b;
    if q <= a / b {
      MulMonotone(q, a / b, b);
    } else {
      MulMonotone(a / b + 1, q, b);
      assert (a / b + 1) * b == (a / b) * b + b;
    }
  }

  /** The window edge as the floor of a real number, capped at the role size. */
  lemma MaxProgressIsFloor(w: Window, replicas: nat)
    requires w.target > 0 && w.denominator > 0
    ensures MaxProgressWithin(w, replicas) ==
            Min(replicas, (replicas as real * (w.least as real / w.target as real + 1.0 / w.denominator as real)).Floor)
  {
    hide MaxProgressWithin;
    PositiveProduct(w.target, w.denominator);
    RealWindowEdge(replicas, w.least, w.target, w.denominator);
    EdgeIsCappedFloor(w, replicas,
                      replicas as real * (w.least as real / w.target as real + 1.0 / w.denominator as real));
  }

  lemma EdgeIsCappedFloor(w: Window, replicas: nat, exact: real)
    requires w.target > 0 && w.denominator > 0
    requires exact * (w.target * w.denominator) as real == (replicas * (w.least * w.denominator + w.target)) as real
    ensures MaxProgressWithin(w, replicas) == Min(replicas, exact.Floor)
  {
    var scale, numerator := w.target * w.denominator, replicas * (w.least * w.denominator + w.target);
    PositiveProduct(w.target, w.denominator);
    var inside := (q: int) => q * scale <= numerator;
    forall q
      ensures q <= MaxProgressWithin(w, replicas) <==> q <= replicas && inside(q)
      ensures q <= exact.Floor <==> inside(q)
    {
      WithinWindowIff(w, replicas, q);
      FloorIff(q, exact, numerator, scale);
    }
    CappedFloor(MaxProgressWithin(w, replicas), replicas, exact.Floor, inside);
  }

  lemma CappedFloor(edge: int, cap: int, floor: int, inside: int -> bool)
    requires forall q :: q <= edge <==> q <= cap && inside(q)
    requires forall q :: q <= floor <==> inside(q)
    ensures edge == Min(cap, floor)
  {
    assert edge <= floor <==> inside(edge);
    var capped := Min(cap, floor);
    assert capped <= floor <==> inside(capped);
  }

  /** An integer is below a rational's floor exactly when it is below the rational. */
  lemma FloorIff(q: int, exact: real, numerator: int, denominator: int)
    requires denominator > 0 && exact * denominator as real == numerator as real
    ensures q <= exact.Floor <==> q * denominator <= numerator
  {
    var r, c := q as real, denominator as real;
    assert (q * denominator) as real == r * c;
    if r <= exact {
      assert r * c <= exact * c;
    } else {
      assert r * c > exact * c;
    }
  }

  lemma RealWindowEdge(replicas: nat, least: nat, target: nat, denominator: nat)
    requires target > 0 && denominator > 0
    ensures (replicas as real * (least as real / target as real
                                 + 1.0 / denominator as real)) * (target * denominator) as real
            == (replicas * (least * denominator + target)) as real
  {
    var r, a, t, d := replicas as real, least as real, target as real, denominator as real;
    var x, y := a / t, 1.0 / d;
    assert x * t == a && y * d == 1.0;
    assert (target * denominator) as real == t * d;
    assert (x + y) * (t * d) == (x * t) * d + (y * d) * t;
    assert (r * (x + y)) * (t * d) == r * ((x + y) * (t * d));
    assert (least * denominator) as real == a * d;
    assert (replicas * (least * denominator + target)) as real == r * (a * d + t);
  }

  const MAX_INT32: nat := 0x7fff_ffff
  const MAX_INT64: nat := 0x7fff_ffff_ffff_ffff

  /** No intermediate of the edge computation overflows 64 bits when counts fit 32. */
  lemma MaxProgressFitsInt64(w: Window, replicas: nat)
    requires 0 < w.target <= MAX_INT32 && 0 < w.denominator <= MAX_INT32
    requires w.least <= MAX_INT32 && replicas <= MAX_INT32
    ensures replicas * w.least <= MAX_INT64
    ensures var scaled := replicas * w.least;
            && 0 <= scaled % w.target * w.denominator + replicas * w.target <= MAX_INT64
            && 0 < w.target * w.denominator <= MAX_INT64
            && scaled / w.target
              + (scaled % w.target * w.denominator + replicas * w.target) / (w.target * w.denominator)
               <= MAX_INT64
  {
    var scaled := replicas * w.least;
    ProductAtMost(replicas, w.least, MAX_INT32);
    ProductAtMost(scaled % w.target, w.denominator, MAX_INT32);
    ProductAtMost(replicas, w.target, MAX_INT32);
    ProductAtMost(w.target, w.denominator, MAX_INT32);
    PositiveProduct(w.target, w.denominator);
    QuotientAtMost(scaled, w.target);
    RemainderEdgeAtMost(scaled % w.target, w.target, w.denominator, replicas);
  }

  lemma ProductAtMost(a: int, b: int, m: int)
    requires 0 <= a <= m && 0 <= b <= m
    ensures 0 <= a * b <= m * m
  {
    MulMonotone(a, m, b);
    MulMonotone(b, m, m);
    NonNegativeProduct(a, b);
  }

  lemma QuotientAtMost(a: int, b: int)
    requires a >= 0 && b > 0
    ensures 0 <= a / b <= a
  {
    AtMostQuotientIff(0, a, b);
    AtMostQuotientIff(a + 1, a, b);
    MulMonotone(1, b, a + 1);
  }

  lemma NonNegativeEdge(scaled: nat, t: nat, d: nat, r: nat)
    requires t > 0 && d > 0
    ensures t * d > 0 && scaled / t + (scaled % t * d + r * t) / (t * d) >= 0
  {
    PositiveProduct(t, d);
    NonNegativeProduct(scaled % t, d);
    NonNegativeProduct(r, t);
    AtMostQuotientIff(0, scaled, t);
    AtMostQuotientIff(0, scaled % t * d + r * t, t * d);
  }

  lemma RemainderEdgeAtMost(rest: nat, t: nat, d: nat, r: nat)
    requires rest < t && d > 0
    ensures t * d > 0 && (rest * d + r * t) / (t * d) <= r + 1
  {
    PositiveProduct(t, d);
    AtMostQuotientIff(r + 2, rest * d + r * t, t * d);
    MulStrict(rest, t, d);
    NonNegativeProduct(r, t);
    MulMonotone(1, d, r * t);
    assert (r + 2) * (t * d) == d * (r * t) + 2 * (t * d);
  }

  // --- How the edge moves with the least-advanced fraction ---

  /** A higher least fraction never lowers the edge. */
  lemma EdgeMonotone(v: Window, w: Window, replicas: nat)
    requires v.target > 0 && w.target > 0 && v.denominator == w.denominator > 0
    requires v.least * w.target <= w.least * v.target
    ensures MaxProgressWithin(v, replicas) <= MaxProgressWithin(w, replicas)
  {
    hide MaxProgressWithin;
    var q, d := MaxProgressWithin(v, replicas), v.denominator;
    WithinWindowIff(v, replicas, q);
    WithinWindowIff(w, replicas, q);
    EdgeScaled(q, v.least, v.target, w.least, w.target, d, replicas);
  }

  lemma EdgeScaled(q: nat, a: nat, t: nat, b: nat, s: nat, d: nat, r: nat)
    requires t > 0 && s > 0 && d > 0 && a * s <= b * t
    requires q * (t * d) <= r * (a * d + t)
    ensures q * (s * d) <= r * (b * d + s)
  {
    assert q * (t * d) == (q * d) * t && r * (a * d + t) == (r * d) * a + r * t;
    ScaleAcross(q * d, r * d, r, a, t, b, s);
    assert q * (s * d) == (q * d) * s && r * (b * d + s) == (r * d) * b + r * s;
  }

  lemma ScaleAcross(x: nat, y: nat, r: nat, a: nat, t: nat, b: nat, s: nat)
    requires t > 0 && s > 0 && a * s <= b * t
    requires x * t <= y * a + r * t
    ensures x * s <= y * b + r * s
  {
    MulMonotone(x * t, y * a + r * t, s);
    MulMonotone(a * s, b * t, y);
    assert (x * s) * t == (x * t) * s;
    assert (y * a + r * t) * s == (a * s) * y + (r * t) * s;
    assert (y * b + r * s) * t == (b * t) * y + (r * t) * s;
    CancelAtMost(x * s, y * b + r * s, t);
  }

  /** A role at or below the lower edge may always advance by one replica. */
  lemma EdgeAdvances(w: Window, replicas: nat, q: nat)
    requires w.target > 0 && 0 < w.denominator <= replicas
    requires q < replicas && q * w.target <= replicas * w.least
    ensures q + 1 <= MaxProgressWithin(w, replicas)
  {
    hide MaxProgressWithin;
    OneMoreWithin(q, w.target, w.denominator, replicas, w.least);
    WithinWindowIff(w, replicas, q + 1);
  }

  lemma OneMoreWithin(q: nat, t: nat, d: nat, replicas: nat, least: nat)
    requires q * t <= replicas * least && d <= replicas
    ensures (q + 1) * (t * d) <= replicas * (least * d + t)
  {
    MulMonotone(q * t, replicas * least, d);
    MulMonotone(d, replicas, t);
    SplitOneMore(q, t, d);
    SplitEdge(replicas, least, d, t);
  }

  lemma SplitOneMore(q: int, t: int, d: int)
    ensures (q + 1) * (t * d) == (q * t) * d + d * t
  {}

  lemma SplitEdge(r: int, l: int, d: int, t: int)
    ensures r * (l * d + t) == (r * l) * d + r * t
  {}

  /** The edge itself is never behind the least-advanced fraction. */
  lemma EdgeNotBehind(w: Window, replicas: nat)
    requires 0 < w.target && w.least <= w.target && 0 < w.denominator <= replicas
    ensures replicas * w.least <= MaxProgressWithin(w, replicas) * w.target
  {
    hide MaxProgressWithin;
    var q := MaxProgressWithin(w, replicas);
    if q * w.target < replicas * w.least {
      MulMonotone(w.least, w.target, replicas);
      if q < replicas {
        EdgeAdvances(w, replicas, q);
      }
    }
  }

  /**
   * Progress `q` below `p` that stays at or above p's least fraction has the
   * same window: the edge depends on the least fraction alone, not on the
   * pair of counts that represents it.
   */
  lemma SameEdge(counts: seq<nat>, p: seq<nat>, q: seq<nat>, replicas: nat)
    requires |counts| == |p| && Below(q, p)
    requires NoneBehind(WindowFor(counts, p), counts, q)
    ensures var v, w := WindowFor(counts, p), WindowFor(counts, q);
            && (v.target == 0 <==> w.target == 0)
            && v.denominator == w.denominator
            && v.least * w.target == w.least * v.target
            && (v.target > 0 && v.denominator > 0 ==> MaxProgressWithin(v, replicas) == MaxProgressWithin(w, replicas))
  {
    hide MaxProgressWithin;
    var v, w := WindowFor(counts, p), WindowFor(counts, q);
    WindowDescribes(counts, p);
    WindowDescribes(counts, q);
    if v.target > 0 {
      var k :| 0 <= k < |counts| && counts[k] == v.target && p[k] == v.least;
      var j :| 0 <= j < |counts| && counts[j] == w.target && q[j] == w.least;
      MulMonotone(q[k], p[k], w.target);
      EdgeMonotone(v, w, replicas);
      EdgeMonotone(w, v, replicas);
    }
  }

  // --- Growth ---

  /** Keeps proposed growth within the window; never reduces a current count. */
  function BoundGrowing(current: seq<nat>, counts: seq<nat>, proposed: seq<nat>): (bounded: seq<nat>)
    requires |current| == |counts| == |proposed|
    ensures |bounded| == |proposed|
  {
    var w := WindowFor(counts, proposed);
    WindowDescribes(counts, proposed);
    if w.target == 0 then
      proposed
    else
      seq(|proposed|, i requires 0 <= i < |proposed| =>
        Max(current[i], Min(proposed[i], MaxProgressWithin(w, counts[i]))))
  }

  /** Growth proposals never retract issued replicas and never exceed the role size. */
  ghost predicate GrowthProposal(current: seq<nat>, counts: seq<nat>, proposed: seq<nat>) {
    |current| == |counts| == |proposed| && Below(current, proposed) && Below(proposed, counts)
  }

  /** Every role's progress is at least the window's least fraction. */
  ghost predicate NoneBehind(w: Window, counts: seq<nat>, progress: seq<nat>) {
    && |counts| == |progress|
    && forall i | 0 <= i < |counts| && counts[i] > 0 :: w.least * counts[i] <= progress[i] * w.target
  }

  /** q/count is at most least/target + 1/denominator. */
  ghost predicate WithinOneReplica(w: Window, count: nat, q: nat) {
    q * (w.target * w.denominator) <= count * (w.least * w.denominator + w.target)
  }

  /**
   * The growth window stays between current and proposed, leaves the least
   * fraction unchanged, and holds every role that grew within one replica of
   * the smallest role.
   */
  lemma BoundGrowingEffective(current: seq<nat>, counts: seq<nat>, proposed: seq<nat>)
    requires GrowthProposal(current, counts, proposed)
    ensures var w, b := WindowFor(counts, proposed), BoundGrowing(current, counts, proposed);
            && Below(current, b) && Below(b, proposed)
            && NoneBehind(w, counts, b)
            && (forall i | 0 <= i < |b| && w.target > 0 && current[i] < b[i] :: WithinOneReplica(w, counts[i], b[i]))
            && (w.target > 0 ==> exists k | 0 <= k < |b| ::
                  counts[k] == w.target && b[k] == proposed[k] == w.least)
  {
    hide MaxProgressWithin;
    var w, b := WindowFor(counts, proposed), BoundGrowing(current, counts, proposed);
    WindowDescribes(counts, proposed);
    if w.target > 0 {
      var k :| 0 <= k < |counts| && counts[k] == w.target && proposed[k] == w.least;
      assert b[k] == proposed[k] by {
        KeepsLeast(w, counts[k], proposed[k]);
      }
      forall i | 0 <= i < |b| && counts[i] > 0
        ensures w.least * counts[i] <= b[i] * w.target
        ensures current[i] < b[i] ==> WithinOneReplica(w, counts[i], b[i])
      {
        GrownRole(w, counts[i], proposed[i], current[i]);
      }
    }
  }

  lemma GrownRole(w: Window, count: nat, proposed: nat, current: nat)
    requires w.target > 0 && 0 < w.denominator <= count && w.least <= w.target
    requires w.least * count <= proposed * w.target
    ensures var b := Max(current, Min(proposed, MaxProgressWithin(w, count)));
            && w.least * count <= b * w.target
            && (current < b ==> WithinOneReplica(w, count, b))
  {
    var edge := MaxProgressWithin(w, count);
    var b := Max(current, Min(proposed, edge));
    EdgeNotBehind(w, count);
    MulMonotone(Min(proposed, edge), b, w.target);
    if current < b {
      WithinWindowIff(w, count, b);
    }
  }

  /** The least-advanced role is inside its own window. */
  lemma KeepsLeast(w: Window, count: nat, progress: nat)
    requires w.target > 0 && 0 < w.denominator <= count && progress <= count
    requires progress * w.target <= count * w.least
    ensures progress <= MaxProgressWithin(w, count)
  {
    hide MaxProgressWithin;
    if progress == count {
      WithinWindowIff(w, count, progress);
      WholeAtEdge(count, w.target, w.least, w.denominator);
    } else {
      EdgeAdvances(w, count, progress);
    }
  }

  lemma WholeAtEdge(count: nat, t: nat, least: nat, d: nat)
    requires count * t <= count * least
    ensures count * (t * d) <= count * (least * d + t)
  {
    MulMonotone(count * t, count * least, d);
    Associate(count, t, d);
    Associate(count, least, d);
    Distribute(count, least * d, t);
    NonNegativeProduct(count, t);
  }

  lemma Associate(a: int, b: int, c: int)
    ensures a * (b * c) == (a * b) * c
  {}

  lemma Distribute(a: int, b: int, c: int)
    ensures a * (b + c) == a * b + a * c
  {}

  /** Bounding growth twice is bounding it once. */
  lemma BoundGrowingIdempotent(current: seq<nat>, counts: seq<nat>, proposed: seq<nat>)
    requires GrowthProposal(current, counts, proposed)
    ensures var b := BoundGrowing(current, counts, proposed); BoundGrowing(current, counts, b) == b
  {
    hide MaxProgressWithin;
    var w, b := WindowFor(counts, proposed), BoundGrowing(current, counts, proposed);
    BoundGrowingEffective(current, counts, proposed);
    WindowDescribes(counts, proposed);
    WindowDescribes(counts, b);
    var again := BoundGrowing(current, counts, b);
    forall i | 0 <= i < |b|
      ensures again[i] == b[i]
    {
      SameEdge(counts, proposed, b, counts[i]);
    }
  }

  // --- Draining ---

  /** Replicas removed from one role's initial count. */
  function DrainedFrom(initial: nat, remaining: int): nat {
    Max(0, Minus(initial, Min(remaining, initial)))
  }

  /** One role's bounded drain, given its window edge. */
  function DrainRole(edge: nat, initial: nat, proposed: int, current: nat): int {
    Min(current, Max(proposed, Max(0, Minus(initial, edge))))
  }

  function ReleaseRole(edge: nat, initial: nat, proposed: int, current: nat, excess: nat): int {
    Min(DrainRole(edge, initial, proposed, current), Max(proposed, Minus(current, excess)))
  }

  /** Old-side progress: replicas removed from the initial count. */
  function Drained(initial: seq<nat>, proposed: seq<int>): (drained: seq<nat>)
    requires |initial| == |proposed|
    ensures |drained| == |initial|
  {
    seq(|initial|, i requires 0 <= i < |initial| => DrainedFrom(initial[i], proposed[i]))
  }

  /** Each role drains as far as proposed and as the window lets it, and no role grows. */
  function BoundDraining(current: seq<nat>, initial: seq<nat>, proposed: seq<int>): (bounded: seq<int>)
    requires |current| == |initial| == |proposed|
    ensures |bounded| == |proposed|
  {
    var drained := Drained(initial, proposed);
    var w := WindowFor(initial, drained);
    WindowDescribes(initial, drained);
    if w.target == 0 then
      proposed
    else
      seq(|proposed|, i requires 0 <= i < |proposed| =>
        DrainRole(MaxProgressWithin(w, initial[i]), initial[i], proposed[i], current[i]))
  }

  /** The drain window, except that a role may release its excess regardless. */
  function BoundReleasing(
    current: seq<nat>, initial: seq<nat>, proposed: seq<int>, excess: seq<nat>
  ): (bounded: seq<int>)
    requires |current| == |initial| == |proposed| == |excess|
    ensures |bounded| == |proposed|
  {
    var b := BoundDraining(current, initial, proposed);
    seq(|proposed|, i requires 0 <= i < |proposed| => Min(b[i], Max(proposed[i], Minus(current[i], excess[i]))))
  }

  ghost predicate DrainProposal(current: seq<nat>, initial: seq<nat>, proposed: seq<int>, excess: seq<nat>) {
    && |current| == |initial| == |proposed| == |excess|
    && Below(proposed, current)
    && forall i | 0 <= i < |proposed| :: 0 <= proposed[i]
  }

  lemma DrainedRole(w: Window, initial: nat, proposed: nat, current: nat, excess: nat)
    requires w.target > 0 && 0 < w.denominator <= initial && w.least <= w.target
    requires proposed <= current
    requires w.least * initial <= DrainedFrom(initial, proposed) * w.target
    ensures var z := ReleaseRole(MaxProgressWithin(w, initial), initial, proposed, current, excess);
            w.least * initial <= DrainedFrom(initial, z) * w.target
  {
    hide MaxProgressWithin;
    var edge := MaxProgressWithin(w, initial);
    var z := ReleaseRole(edge, initial, proposed, current, excess);
    EdgeNotBehind(w, initial);
    WithinWindowIff(w, initial, edge);
    var reached := Min(DrainedFrom(initial, proposed), edge);
    assert reached <= DrainedFrom(initial, z);
    MulMonotone(reached, DrainedFrom(initial, z), w.target);
  }

  /** Every role that drains beyond its excess has drained within one replica of the smallest role. */
  ghost predicate DrainedWithin(w: Window, initial: seq<nat>, current: seq<nat>, excess: seq<nat>, z: seq<int>)
    requires |initial| == |current| == |excess| == |z|
  {
    forall i | 0 <= i < |z| && z[i] + excess[i] < current[i] ::
      WithinOneReplica(w, initial[i], DrainedFrom(initial[i], z[i]))
  }

  lemma DrainedRoleWithin(w: Window, initial: nat, proposed: int, current: nat, excess: nat)
    requires w.target > 0 && w.denominator > 0
    ensures var z := ReleaseRole(MaxProgressWithin(w, initial), initial, proposed, current, excess);
            z + excess < current ==> WithinOneReplica(w, initial, DrainedFrom(initial, z))
  {
    var edge := MaxProgressWithin(w, initial);
    var z := ReleaseRole(edge, initial, proposed, current, excess);
    WithinWindowIff(w, initial, DrainedFrom(initial, z));
  }

  lemma BoundReleasingWithin(current: seq<nat>, initial: seq<nat>, proposed: seq<int>, excess: seq<nat>)
    requires |current| == |initial| == |proposed| == |excess|
    ensures var w, z :=
            WindowFor(initial, Drained(initial, proposed)), BoundReleasing(current, initial, proposed, excess);
            w.target > 0 ==> DrainedWithin(w, initial, current, excess, z)
  {
    hide MaxProgressWithin, WindowFor, BoundReleasing, WithinOneReplica, DrainedFrom, ReleaseRole;
    var w, z := WindowFor(initial, Drained(initial, proposed)), BoundReleasing(current, initial, proposed, excess);
    if w.target > 0 {
      forall i | 0 <= i < |z| && z[i] + excess[i] < current[i]
        ensures WithinOneReplica(w, initial[i], DrainedFrom(initial[i], z[i]))
      {
        ReleasingAt(current, initial, proposed, excess, i);
        DrainedRoleWithin(w, initial[i], proposed[i], current[i], excess[i]);
      }
    }
  }

  /**
   * The drain window, surge release included, stays between proposed and
   * current, leaves no role behind the least drained fraction, holds every role
   * that drained beyond its excess within one replica of the smallest role, and
   * leaves the least-drained role exactly where it was proposed.
   */
  lemma BoundReleasingEffective(current: seq<nat>, initial: seq<nat>, proposed: seq<int>, excess: seq<nat>)
    requires DrainProposal(current, initial, proposed, excess)
    ensures var w, z :=
            WindowFor(initial, Drained(initial, proposed)), BoundReleasing(current, initial, proposed, excess);
            && Below(proposed, z) && Below(z, current)
            && NoneBehind(w, initial, Drained(initial, z))
            && (w.target > 0 ==> DrainedWithin(w, initial, current, excess, z))
            && (w.target > 0 ==> exists k | 0 <= k < |z| ::
                  initial[k] == w.target && z[k] == proposed[k] && Drained(initial, proposed)[k] == w.least)
  {
    hide MaxProgressWithin, DrainedWithin;
    var drained := Drained(initial, proposed);
    WindowDescribes(initial, drained);
    BoundReleasingWithin(current, initial, proposed, excess);
    forall i | 0 <= i < |initial| {
      ReleasingRole(current, initial, proposed, excess, i);
    }
    var w, z := WindowFor(initial, drained), BoundReleasing(current, initial, proposed, excess);
    if w.target > 0 {
      var k :| 0 <= k < |initial| && initial[k] == w.target && drained[k] == w.least;
      ReleasingKeepsLeast(current, initial, proposed, excess, k);
      assert initial[k] == w.target && z[k] == proposed[k] && Drained(initial, proposed)[k] == w.least;
    }
  }

  lemma ReleasingRole(current: seq<nat>, initial: seq<nat>, proposed: seq<int>, excess: seq<nat>, i: nat)
    requires DrainProposal(current, initial, proposed, excess) && i < |initial|
    ensures var w, z :=
            WindowFor(initial, Drained(initial, proposed)), BoundReleasing(current, initial, proposed, excess);
            && proposed[i] <= z[i] <= current[i]
            && (initial[i] > 0 ==> w.least * initial[i] <= Drained(initial, z)[i] * w.target)
  {
    var w, z := WindowFor(initial, Drained(initial, proposed)), BoundReleasing(current, initial, proposed, excess);
    ReleasingAt(current, initial, proposed, excess, i);
    if initial[i] > 0 {
      DrainWindow(initial, proposed, i);
      DrainedRole(w, initial[i], proposed[i], current[i], excess[i]);
      assert Drained(initial, z)[i] == DrainedFrom(initial[i], z[i]);
    }
  }

  /** A role with replicas takes part in the drain window. */
  lemma DrainWindow(initial: seq<nat>, proposed: seq<int>, i: nat)
    requires |initial| == |proposed| && i < |initial| && initial[i] > 0
    requires forall j | 0 <= j < |proposed| :: 0 <= proposed[j]
    ensures var w := WindowFor(initial, Drained(initial, proposed));
            && 0 < w.target && w.least <= w.target && 0 < w.denominator <= initial[i]
            && w.least * initial[i] <= DrainedFrom(initial[i], proposed[i]) * w.target
  {
    var drained := Drained(initial, proposed);
    WindowDescribes(initial, drained);
    var w := WindowFor(initial, drained);
    var k :| 0 <= k < |initial| && initial[k] == w.target && drained[k] == w.least;
    assert drained[k] <= initial[k];
    assert drained[i] == DrainedFrom(initial[i], proposed[i]);
  }

  lemma ReleasingKeepsLeast(current: seq<nat>, initial: seq<nat>, proposed: seq<int>, excess: seq<nat>, k: nat)
    requires DrainProposal(current, initial, proposed, excess) && k < |initial|
    requires var w := WindowFor(initial, Drained(initial, proposed));
             w.target > 0 && Drained(initial, proposed)[k] * w.target <= initial[k] * w.least && initial[k] > 0
    ensures BoundReleasing(current, initial, proposed, excess)[k] == proposed[k]
  {
    var drained := Drained(initial, proposed);
    WindowDescribes(initial, drained);
    ReleasingAt(current, initial, proposed, excess, k);
    KeepsLeast(WindowFor(initial, drained), initial[k], drained[k]);
  }

  lemma ReleasingAt(current: seq<nat>, initial: seq<nat>, proposed: seq<int>, excess: seq<nat>, i: nat)
    requires |current| == |initial| == |proposed| == |excess| && i < |proposed|
    ensures var w, z :=
            WindowFor(initial, Drained(initial, proposed)), BoundReleasing(current, initial, proposed, excess);
            && (w.target == 0 ==> z[i] == proposed[i])
            && (w.target > 0 ==>
                  && w.denominator > 0
                  && z[i] == ReleaseRole(MaxProgressWithin(w, initial[i]), initial[i], proposed[i], current[i],
                                         excess[i]))
  {
    hide MaxProgressWithin;
    WindowDescribes(initial, Drained(initial, proposed));
  }

  /** Bounding a drain twice, surge release included, is bounding it once. */
  lemma BoundReleasingIdempotent(current: seq<nat>, initial: seq<nat>, proposed: seq<int>, excess: seq<nat>)
    requires DrainProposal(current, initial, proposed, excess)
    ensures var z := BoundReleasing(current, initial, proposed, excess);
            BoundReleasing(current, initial, z, excess) == z
  {
    hide MaxProgressWithin;
    var z := BoundReleasing(current, initial, proposed, excess);
    BoundReleasingEffective(current, initial, proposed, excess);
    forall i | 0 <= i < |z|
      ensures BoundReleasing(current, initial, z, excess)[i] == z[i]
    {
      ReleasingAt(current, initial, proposed, excess, i);
      ReleasingAt(current, initial, z, excess, i);
      SameEdge(initial, Drained(initial, proposed), Drained(initial, z), initial[i]);
    }
  }

  // --- The loops that fill the bounded vectors ---

  method BoundGrowingRoleTargetsToWindow(
    current: seq<nat>, counts: seq<nat>, proposed: seq<nat>
  ) returns (bounded: seq<nat>)
    requires |current| == |counts| == |proposed|
    ensures bounded == BoundGrowing(current, counts, proposed)
  {
    var w, ok := CoordinationWindowForProgress(counts, proposed);
    if !ok {
      return proposed;
    }
    bounded := [];
    for i := 0 to |counts|
      invariant |bounded| == i
      invariant forall j | 0 <= j < i :: bounded[j] == BoundGrowing(current, counts, proposed)[j]
    {
      bounded := bounded + [Max(current[i], Min(proposed[i], MaxProgressWithin(w, counts[i])))];
    }
  }

  method BoundDrainingRoleTargetsToWindow(
    current: seq<nat>, initial: seq<nat>, proposed: seq<int>
  ) returns (bounded: seq<int>)
    requires |current| == |initial| == |proposed|
    ensures bounded == BoundDraining(current, initial, proposed)
  {
    var drained: seq<nat> := [];
    for i := 0 to |initial|
      invariant |drained| == i
      invariant forall j | 0 <= j < i :: drained[j] == Drained(initial, proposed)[j]
    {
      drained := drained + [DrainedFrom(initial[i], proposed[i])];
    }
    assert drained == Drained(initial, proposed);
    var w, ok := CoordinationWindowForProgress(initial, drained);
    if !ok {
      return proposed;
    }
    bounded := [];
    for i := 0 to |initial|
      invariant |bounded| == i
      invariant forall j | 0 <= j < i :: bounded[j] == BoundDraining(current, initial, proposed)[j]
    {
      bounded := bounded + [DrainRole(MaxProgressWithin(w, initial[i]), initial[i], proposed[i], current[i])];
    }
  }
}
