/** The mathematics of Lloyd's iteration: it never increases the weighted squared-distance objective,
    and every move beyond the tolerance lowers it by a fixed amount. Stated for any space with an inner
    product; KMeans uses it for sparse vectors. */
module Lloyd {

  /** The operations the iteration uses; `dist` is the squared distance, `times` the product of numbers.
      As function values they stay closed: the proofs below open them only by the laws they ask for. */
  datatype Space<!V> = Space(dist: (V, V) -> real, dot: (V, V) -> real, zero: V,
                             mulAdd: (V, real, V) -> V, scale: (V, real) -> V, valid: V -> bool,
                             times: (real, real) -> real)

  /** Marks the instances of the laws below that a proof asks for. */
  ghost predicate Ask<V>(u: V, v: V, s: real, w: V) { true }

  ghost predicate AskProduct(a: real, b: real) { true }

  /** The laws of an inner product, for vectors built by the operations. */
  ghost predicate Laws<V(!new)>(sp: Space<V>, u: V, v: V, s: real, w: V) {
    && sp.valid(sp.mulAdd(v, s, w)) && sp.valid(sp.scale(v, s))
    && sp.dot(u, sp.zero) == 0.0
    && sp.dot(u, sp.mulAdd(v, s, w)) == sp.dot(u, w) + sp.times(s, sp.dot(u, v))
    && sp.dot(u, sp.scale(v, s)) == sp.times(s, sp.dot(u, v))
    && sp.dist(u, v) == sp.dot(u, u) - 2.0 * sp.dot(v, u) + sp.dot(v, v)
    && sp.dist(u, v) >= 0.0 && sp.dist(u, u) == 0.0
  }

  ghost predicate Euclidean<V(!new)>(sp: Space<V>) {
    && sp.valid(sp.zero)
    && (forall u, v, s, w {:trigger Ask(u, v, s, w)} ::
          Ask(u, v, s, w) && sp.valid(u) && sp.valid(v) && sp.valid(w) ==> Laws(sp, u, v, s, w))
    && (forall a, b {:trigger AskProduct(a, b)} :: AskProduct(a, b) ==> sp.times(a, b) == a * b)
  }

  lemma Times<V(!new)>(sp: Space<V>, a: real, b: real)
    requires Euclidean(sp)
    ensures sp.times(a, b) == a * b
  {
    assert AskProduct(a, b);
  }

  lemma DotOfSum<V(!new)>(sp: Space<V>, u: V, v: V, s: real, w: V)
    requires Euclidean(sp) && sp.valid(u) && sp.valid(v) && sp.valid(w)
    ensures sp.valid(sp.mulAdd(v, s, w)) && sp.dot(u, sp.mulAdd(v, s, w)) == sp.dot(u, w) + s * sp.dot(u, v)
  {
    assert Ask(u, v, s, w);
    Times(sp, s, sp.dot(u, v));
  }

  lemma DotOfMultiple<V(!new)>(sp: Space<V>, u: V, v: V, s: real)
    requires Euclidean(sp) && sp.valid(u) && sp.valid(v)
    ensures sp.valid(sp.scale(v, s)) && sp.dot(u, sp.scale(v, s)) == s * sp.dot(u, v)
  {
    assert Ask(u, v, s, v);
    Times(sp, s, sp.dot(u, v));
  }

  lemma Distance<V(!new)>(sp: Space<V>, u: V, v: V)
    requires Euclidean(sp) && sp.valid(u) && sp.valid(v)
    ensures sp.dist(u, v) == sp.dot(u, u) - 2.0 * sp.dot(v, u) + sp.dot(v, v)
    ensures sp.dist(u, v) >= 0.0 && sp.dist(u, u) == 0.0
  {
    assert Ask(u, v, 0.0, v);
  }

  lemma DotZero<V(!new)>(sp: Space<V>, u: V)
    requires Euclidean(sp) && sp.valid(u)
    ensures sp.dot(u, sp.zero) == 0.0
  {
    assert Ask(u, u, 0.0, u);
  }

  datatype Point<V> = Point(data: V, weight: real)

  /** The square of the stopping tolerance 1e-9. */
  const TOLERANCE := 1.0e-18

  ghost predicate ValidPoints<V(!new)>(sp: Space<V>, points: seq<Point<V>>) {
    forall i :: 0 <= i < |points| ==> sp.valid(points[i].data) && points[i].weight >= 0.0
  }

  ghost predicate ValidCenters<V(!new)>(sp: Space<V>, cs: seq<V>) {
    cs != [] && forall j :: 0 <= j < |cs| ==> sp.valid(cs[j])
  }

  // ----- one iteration, as a function

  /** The first of the closest among the first n centers. */
  function NearestUpTo<V(!new)>(sp: Space<V>, x: V, cs: seq<V>, n: nat): (j: nat)
    requires 0 < n <= |cs|
    ensures j < n
  {
    if n == 1 then 0
    else
      var j := NearestUpTo(sp, x, cs, n - 1);
      if sp.dist(x, cs[j]) > sp.dist(x, cs[n - 1]) then n - 1 else j
  }

  function Nearest<V(!new)>(sp: Space<V>, x: V, cs: seq<V>): nat
    requires cs != []
  {
    NearestUpTo(sp, x, cs, |cs|)
  }

  /** The weighted sum of the points closest to center j. */
  function ClusterSum<V(!new)>(sp: Space<V>, points: seq<Point<V>>, cs: seq<V>, j: nat): V
    requires cs != []
  {
    if points == [] then sp.zero
    else
      var n := |points| - 1;
      var sum := ClusterSum(sp, points[..n], cs, j);
      if Nearest(sp, points[n].data, cs) == j then sp.mulAdd(points[n].data, points[n].weight, sum) else sum
  }

  function ClusterWeight<V(!new)>(sp: Space<V>, points: seq<Point<V>>, cs: seq<V>, j: nat): real
    requires cs != []
  {
    if points == [] then 0.0
    else
      var n := |points| - 1;
      ClusterWeight(sp, points[..n], cs, j) + if Nearest(sp, points[n].data, cs) == j then points[n].weight else 0.0
  }

  function NewCenter<V(!new)>(sp: Space<V>, points: seq<Point<V>>, cs: seq<V>, j: nat): V
    requires j < |cs|
  {
    var w := ClusterWeight(sp, points, cs, j);
    if w == 0.0 then cs[j] else sp.scale(ClusterSum(sp, points, cs, j), 1.0 / w)
  }

  function NewCenters<V(!new)>(sp: Space<V>, points: seq<Point<V>>, cs: seq<V>): seq<V> {
    seq(|cs|, j requires 0 <= j < |cs| => NewCenter(sp, points, cs, j))
  }

  /** Some center moved further than the tolerance. */
  ghost predicate Moved<V(!new)>(sp: Space<V>, cs: seq<V>, ds: seq<V>)
    requires |cs| == |ds|
  {
    exists j :: 0 <= j < |cs| && sp.dist(ds[j], cs[j]) > TOLERANCE
  }

  // ----- the objective

  /** The weighted squared distances to ds when points are assigned to their nearest center of cs. */
  ghost function AssignedCost<V(!new)>(sp: Space<V>, points: seq<Point<V>>, cs: seq<V>, ds: seq<V>): real
    requires cs != [] && |ds| == |cs|
  {
    if points == [] then 0.0
    else
      var n := |points| - 1;
      AssignedCost(sp, points[..n], cs, ds)
          + sp.times(points[n].weight, sp.dist(points[n].data, ds[Nearest(sp, points[n].data, cs)]))
  }

  ghost function Objective<V(!new)>(sp: Space<V>, points: seq<Point<V>>, cs: seq<V>): real
    requires cs != []
  {
    AssignedCost(sp, points, cs, cs)
  }

  lemma {:induction false} NearestIsClosest<V(!new)>(sp: Space<V>, x: V, cs: seq<V>, n: nat, j: nat)
    requires j < n <= |cs|
    ensures sp.dist(x, cs[NearestUpTo(sp, x, cs, n)]) <= sp.dist(x, cs[j])
    ensures j < NearestUpTo(sp, x, cs, n) ==> sp.dist(x, cs[NearestUpTo(sp, x, cs, n)]) < sp.dist(x, cs[j])
  {
    if n > 1 && j < n - 1 {
      NearestIsClosest(sp, x, cs, n - 1, j);
    }
  }

  lemma TimesMonotone<V(!new)>(sp: Space<V>, w: real, a: real, b: real)
    requires Euclidean(sp) && w >= 0.0 && a <= b
    ensures sp.times(w, a) <= sp.times(w, b)
    ensures 0.0 <= a ==> 0.0 <= sp.times(w, a)
  {
    Times(sp, w, a);
    Times(sp, w, b);
  }

  /** Reassigning every point to its nearest center never costs more. */
  lemma {:induction false} ReassignCheaper<V(!new)>(sp: Space<V>, points: seq<Point<V>>, cs: seq<V>, ds: seq<V>)
    requires Euclidean(sp) && cs != [] && |ds| == |cs| && ValidPoints(sp, points)
    ensures Objective(sp, points, ds) <= AssignedCost(sp, points, cs, ds)
  {
    if points != [] {
      var n := |points| - 1;
      var p := points[n];
      ReassignCheaper(sp, points[..n], cs, ds);
      var j, i := Nearest(sp, p.data, cs), Nearest(sp, p.data, ds);
      NearestIsClosest(sp, p.data, ds, |ds|, j);
      TimesMonotone(sp, p.weight, sp.dist(p.data, ds[i]), sp.dist(p.data, ds[j]));
    }
  }

  lemma {:induction false} CostNonNegative<V(!new)>(sp: Space<V>, points: seq<Point<V>>, cs: seq<V>, ds: seq<V>)
    requires Euclidean(sp) && cs != [] && |ds| == |cs| && ValidPoints(sp, points) && ValidCenters(sp, ds)
    ensures AssignedCost(sp, points, cs, ds) >= 0.0
  {
    if points != [] {
      var n := |points| - 1;
      CostNonNegative(sp, points[..n], cs, ds);
      var d := ds[Nearest(sp, points[n].data, cs)];
      Distance(sp, points[n].data, d);
      TimesMonotone(sp, points[n].weight, sp.dist(points[n].data, d), sp.dist(points[n].data, d));
    }
  }

  // ----- one cluster

  ghost function ClusterCost<V(!new)>(sp: Space<V>, points: seq<Point<V>>, cs: seq<V>, j: nat, d: V): real
    requires cs != []
  {
    if points == [] then 0.0
    else
      var n := |points| - 1;
      ClusterCost(sp, points[..n], cs, j, d)
      + if Nearest(sp, points[n].data, cs) == j then sp.times(points[n].weight, sp.dist(points[n].data, d)) else 0.0
  }

  ghost function ClusterSquares<V(!new)>(sp: Space<V>, points: seq<Point<V>>, cs: seq<V>, j: nat): real
    requires cs != []
  {
    if points == [] then 0.0
    else
      var n := |points| - 1;
      var p := points[n];
      ClusterSquares(sp, points[..n], cs, j)
          + if Nearest(sp, p.data, cs) == j then sp.times(p.weight, sp.dot(p.data, p.data)) else 0.0
  }

  lemma {:induction false} ClusterSumValid<V(!new)>(sp: Space<V>, points: seq<Point<V>>, cs: seq<V>, j: nat)
    requires Euclidean(sp) && cs != [] && ValidPoints(sp, points)
    ensures sp.valid(ClusterSum(sp, points, cs, j))
  {
    if points != [] {
      var p := points[|points| - 1];
      ClusterSumValid(sp, points[..|points| - 1], cs, j);
      DotOfSum(sp, p.data, p.data, p.weight, ClusterSum(sp, points[..|points| - 1], cs, j));
    }
  }

  /** Adding one point p of weight w to a cluster, seen from a center d. */
  lemma AddPoint<V(!new)>(sp: Space<V>, p: V, w: real, d: V, sum: V, weight: real)
    requires Euclidean(sp) && sp.valid(p) && sp.valid(d) && sp.valid(sum)
    ensures sp.times(w, sp.dist(p, d)) + sp.times(weight, sp.dot(d, d)) - 2.0 * sp.dot(d, sum)
         == sp.times(w, sp.dot(p, p)) - 2.0 * sp.dot(d, sp.mulAdd(p, w, sum)) + sp.times(weight + w, sp.dot(d, d))
  {
    DotOfSum(sp, d, p, w, sum);
    Distance(sp, p, d);
    Times(sp, w, sp.dist(p, d));
    Times(sp, w, sp.dot(p, p));
    Times(sp, weight, sp.dot(d, d));
    Times(sp, weight + w, sp.dot(d, d));
    AddPointAlgebra(w, sp.dot(p, p), sp.dot(d, p), sp.dot(d, d), weight);
  }

  lemma AddPointAlgebra(w: real, pp: real, dp: real, dd: real, weight: real)
    ensures w * (pp - 2.0 * dp + dd) + weight * dd == w * pp - 2.0 * (w * dp) + (weight + w) * dd
  {
  }

  /** A cluster's cost as a quadratic form in the center. */
  lemma {:induction false} ClusterQuadratic<V(!new)>(sp: Space<V>, points: seq<Point<V>>, cs: seq<V>, j: nat, d: V)
    requires Euclidean(sp) && cs != [] && ValidPoints(sp, points) && sp.valid(d)
    ensures ClusterCost(sp, points, cs, j, d)
         == ClusterSquares(sp, points, cs, j) - 2.0 * sp.dot(d, ClusterSum(sp, points, cs, j))
            + sp.times(ClusterWeight(sp, points, cs, j), sp.dot(d, d))
  {
    if points == [] {
      DotZero(sp, d);
      Times(sp, 0.0, sp.dot(d, d));
    } else {
      var n := |points| - 1;
      var p := points[n];
      ClusterQuadratic(sp, points[..n], cs, j, d);
      if Nearest(sp, p.data, cs) == j {
        ClusterSumValid(sp, points[..n], cs, j);
        AddPoint(sp, p.data, p.weight, d, ClusterSum(sp, points[..n], cs, j), ClusterWeight(sp, points[..n], cs, j));
      }
    }
  }

  /** With m the mean sum / w: the quadratic form at c exceeds that at m by w times their squared distance. */
  lemma MeanIdentity<V(!new)>(sp: Space<V>, w: real, sum: V, c: V)
    requires Euclidean(sp) && sp.valid(sum) && sp.valid(c) && w != 0.0
    ensures var m := sp.scale(sum, 1.0 / w);
            sp.valid(m) && (sp.times(w, sp.dot(c, c)) - 2.0 * sp.dot(c, sum))
                           - (sp.times(w, sp.dot(m, m)) - 2.0 * sp.dot(m, sum)) == sp.times(w, sp.dist(m, c))
  {
    var m := sp.scale(sum, 1.0 / w);
    DotOfMultiple(sp, c, sum, 1.0 / w);
    DotOfMultiple(sp, m, sum, 1.0 / w);
    Distance(sp, m, c);
    Times(sp, w, sp.dot(c, c));
    Times(sp, w, sp.dot(m, m));
    Times(sp, w, sp.dist(m, c));
    MeanAlgebra(w, sp.dot(c, sum), sp.dot(m, sum), sp.dot(c, c), sp.dot(c, m), sp.dot(m, m));
  }

  lemma MeanAlgebra(w: real, cs: real, ms: real, cc: real, cm: real, mm: real)
    requires w != 0.0 && cm == (1.0 / w) * cs && mm == (1.0 / w) * ms
    ensures (w * cc - 2.0 * cs) - (w * mm - 2.0 * ms) == w * (mm - 2.0 * cm + cc)
  {
    assert w * cm == cs && w * mm == ms;
  }

  /** Moving a center to its cluster's mean saves the cluster's weight times the squared move. */
  lemma MeanSaves<V(!new)>(sp: Space<V>, points: seq<Point<V>>, cs: seq<V>, j: nat)
    requires Euclidean(sp) && ValidCenters(sp, cs) && j < |cs| && ValidPoints(sp, points)
    ensures var m := NewCenter(sp, points, cs, j);
            sp.valid(m) && ClusterCost(sp, points, cs, j, cs[j]) - ClusterCost(sp, points, cs, j, m)
                           == sp.times(ClusterWeight(sp, points, cs, j), sp.dist(m, cs[j]))
  {
    var w, m := ClusterWeight(sp, points, cs, j), NewCenter(sp, points, cs, j);
    if w == 0.0 {
      Times(sp, w, sp.dist(m, cs[j]));
    } else {
      ClusterSumValid(sp, points, cs, j);
      MeanIdentity(sp, w, ClusterSum(sp, points, cs, j), cs[j]);
      ClusterQuadratic(sp, points, cs, j, cs[j]);
      ClusterQuadratic(sp, points, cs, j, m);
    }
  }

  // ----- what a new center is good for

  /** Some point of positive weight is closest to center j. */
  ghost predicate HasMembers<V(!new)>(sp: Space<V>, points: seq<Point<V>>, cs: seq<V>, j: nat)
    requires cs != []
  {
    exists i :: 0 <= i < |points| && points[i].weight > 0.0 && Nearest(sp, points[i].data, cs) == j
  }

  lemma {:induction false} MembersWeigh<V(!new)>(sp: Space<V>, points: seq<Point<V>>, cs: seq<V>, j: nat)
    requires cs != [] && ValidPoints(sp, points)
    ensures ClusterWeight(sp, points, cs, j) >= 0.0
    ensures HasMembers(sp, points, cs, j) <==> ClusterWeight(sp, points, cs, j) > 0.0
  {
    if points != [] {
      var n := |points| - 1;
      var front := points[..n];
      MembersWeigh(sp, front, cs, j);
      if HasMembers(sp, front, cs, j) {
        var i :| 0 <= i < n && front[i].weight > 0.0 && Nearest(sp, front[i].data, cs) == j;
        assert points[i] == front[i];
      }
      if HasMembers(sp, points, cs, j) && !(points[n].weight > 0.0 && Nearest(sp, points[n].data, cs) == j) {
        var i :| 0 <= i < |points| && points[i].weight > 0.0 && Nearest(sp, points[i].data, cs) == j;
        assert front[i] == points[i];
      }
    }
  }

  /** No valid vector serves the points closest to center j of cs better than d. */
  ghost predicate Serves<V(!new)>(sp: Space<V>, points: seq<Point<V>>, cs: seq<V>, j: nat, d: V)
    requires cs != []
  {
    sp.valid(d)
    && forall e :: sp.valid(e) ==> ClusterCost(sp, points, cs, j, d) <= ClusterCost(sp, points, cs, j, e)
  }

  /** Any other vector costs a cluster its weight times the squared distance from the mean more. */
  lemma MeanIsBest<V(!new)>(sp: Space<V>, points: seq<Point<V>>, cs: seq<V>, j: nat, d: V)
    requires Euclidean(sp) && j < |cs| && ValidPoints(sp, points) && sp.valid(d)
    requires HasMembers(sp, points, cs, j)
    ensures var m := NewCenter(sp, points, cs, j);
            sp.valid(m) && ClusterCost(sp, points, cs, j, d) - ClusterCost(sp, points, cs, j, m)
                           == sp.times(ClusterWeight(sp, points, cs, j), sp.dist(m, d)) >= 0.0
  {
    var w, m := ClusterWeight(sp, points, cs, j), NewCenter(sp, points, cs, j);
    MembersWeigh(sp, points, cs, j);
    ClusterSumValid(sp, points, cs, j);
    MeanIdentity(sp, w, ClusterSum(sp, points, cs, j), d);
    ClusterQuadratic(sp, points, cs, j, d);
    ClusterQuadratic(sp, points, cs, j, m);
    Distance(sp, m, d);
    TimesMonotone(sp, w, 0.0, sp.dist(m, d));
  }

  /** A center with members is replaced by one that serves them best, a center without stays. */
  lemma NewCenterServes<V(!new)>(sp: Space<V>, points: seq<Point<V>>, cs: seq<V>, j: nat)
    requires Euclidean(sp) && ValidCenters(sp, cs) && j < |cs| && ValidPoints(sp, points)
    ensures var m := NewCenter(sp, points, cs, j);
            if HasMembers(sp, points, cs, j) then Serves(sp, points, cs, j, m) else m == cs[j]
  {
    MembersWeigh(sp, points, cs, j);
    if HasMembers(sp, points, cs, j) {
      var m := NewCenter(sp, points, cs, j);
      MeanIsBest(sp, points, cs, j, cs[j]);
      forall e | sp.valid(e) ensures ClusterCost(sp, points, cs, j, m) <= ClusterCost(sp, points, cs, j, e) {
        MeanIsBest(sp, points, cs, j, e);
      }
    }
  }

  // ----- all clusters

  ghost function SumOfClusters<V(!new)>(sp: Space<V>, points: seq<Point<V>>, cs: seq<V>, ds: seq<V>, k: nat): real
    requires k <= |cs| == |ds|
  {
    if k == 0 then 0.0
    else SumOfClusters(sp, points, cs, ds, k - 1) + ClusterCost(sp, points, cs, k - 1, ds[k - 1])
  }

  lemma {:induction false} EmptySum<V(!new)>(sp: Space<V>, cs: seq<V>, ds: seq<V>, k: nat)
    requires k <= |cs| == |ds|
    ensures SumOfClusters(sp, [], cs, ds, k) == 0.0
  {
    if k > 0 {
      EmptySum(sp, cs, ds, k - 1);
    }
  }

  lemma {:induction false} LastPointInSum<V(!new)>(sp: Space<V>, points: seq<Point<V>>, cs: seq<V>, ds: seq<V>, k: nat)
    requires k <= |cs| == |ds| && cs != [] && points != []
    ensures SumOfClusters(sp, points, cs, ds, k)
         == SumOfClusters(sp, points[..|points| - 1], cs, ds, k)
            + LastPointCost(sp, points, cs, ds, k)
  {
    if k > 0 {
      LastPointInSum(sp, points, cs, ds, k - 1);
    }
  }

  ghost function LastPointCost<V(!new)>(sp: Space<V>, points: seq<Point<V>>, cs: seq<V>, ds: seq<V>, k: nat): real
    requires k <= |cs| == |ds| && cs != [] && points != []
  {
    var p := points[|points| - 1];
    var j := Nearest(sp, p.data, cs);
    if j < k then sp.times(p.weight, sp.dist(p.data, ds[j])) else 0.0
  }

  lemma {:induction false} CostIsSumOfClusters<V(!new)>(sp: Space<V>, points: seq<Point<V>>, cs: seq<V>, ds: seq<V>)
    requires cs != [] && |cs| == |ds|
    ensures AssignedCost(sp, points, cs, ds) == SumOfClusters(sp, points, cs, ds, |cs|)
  {
    if points == [] {
      EmptySum(sp, cs, ds, |cs|);
    } else {
      CostIsSumOfClusters(sp, points[..|points| - 1], cs, ds);
      LastPointInSum(sp, points, cs, ds, |cs|);
    }
  }

  /** What an iteration saves: cluster weights times squared moves. */
  ghost function Saving<V(!new)>(sp: Space<V>, points: seq<Point<V>>, cs: seq<V>, k: nat): real
    requires k <= |cs|
  {
    if k == 0 then 0.0
    else
      Saving(sp, points, cs, k - 1)
      + sp.times(ClusterWeight(sp, points, cs, k - 1), sp.dist(NewCenter(sp, points, cs, k - 1), cs[k - 1]))
  }

  lemma {:induction false} SumSaves<V(!new)>(sp: Space<V>, points: seq<Point<V>>, cs: seq<V>, k: nat)
    requires Euclidean(sp) && ValidCenters(sp, cs) && k <= |cs| && ValidPoints(sp, points)
    ensures SumOfClusters(sp, points, cs, cs, k) - SumOfClusters(sp, points, cs, NewCenters(sp, points, cs), k)
         == Saving(sp, points, cs, k)
  {
    if k > 0 {
      assert NewCenters(sp, points, cs)[k - 1] == NewCenter(sp, points, cs, k - 1);
      SumSaves(sp, points, cs, k - 1);
      MeanSaves(sp, points, cs, k - 1);
    }
  }

  ghost predicate HasWeight<V>(points: seq<Point<V>>) {
    exists i :: 0 <= i < |points| && points[i].weight > 0.0
  }

  /** The least of the positive weights; without a positive weight, one. */
  ghost function MinWeight<V>(points: seq<Point<V>>): (w: real)
    ensures w > 0.0
  {
    if points == [] then 1.0
    else
      var n := |points| - 1;
      var w := MinWeight(points[..n]);
      if 0.0 < points[n].weight && (points[n].weight < w || !HasWeight(points[..n])) then points[n].weight else w
  }

  /** A positive number that no positive weight is below. */
  ghost predicate Below<V>(low: real, points: seq<Point<V>>) {
    low > 0.0 && forall i :: 0 <= i < |points| && points[i].weight > 0.0 ==> low <= points[i].weight
  }

  /** One of the positive weights, if there are any, and none of them is less. */
  lemma {:induction false} MinWeightIsLeast<V>(points: seq<Point<V>>)
    ensures Below(MinWeight(points), points)
    ensures HasWeight(points) ==> exists i :: 0 <= i < |points| && points[i].weight == MinWeight(points)
  {
    if points != [] {
      var n := |points| - 1;
      var front := points[..n];
      MinWeightIsLeast(front);
      forall i | 0 <= i < |points| && points[i].weight > 0.0 ensures MinWeight(points) <= points[i].weight {
        if i < n {
          assert front[i].weight > 0.0;
        }
      }
      if HasWeight(points) && MinWeight(points) != points[n].weight {
        var i :| 0 <= i < |points| && points[i].weight > 0.0;
        assert i < n ==> front[i].weight > 0.0;
        var j :| 0 <= j < |front| && front[j].weight == MinWeight(front);
        assert points[j].weight == MinWeight(points);
      }
    }
  }

  lemma {:induction false} ClusterWeightBound<V(!new)>(sp: Space<V>, points: seq<Point<V>>, cs: seq<V>, j: nat,
                                                       low: real)
    requires cs != [] && ValidPoints(sp, points) && Below(low, points)
    ensures ClusterWeight(sp, points, cs, j) == 0.0 || ClusterWeight(sp, points, cs, j) >= low
  {
    if points != [] {
      ClusterWeightBound(sp, points[..|points| - 1], cs, j, low);
    }
  }

  lemma OneSaving<V(!new)>(sp: Space<V>, w: real, low: real, d: real)
    requires Euclidean(sp) && 0.0 < low && (w == 0.0 || w >= low) && d >= 0.0
    ensures sp.times(w, d) >= 0.0 && (w != 0.0 && d > TOLERANCE ==> sp.times(w, d) >= low * TOLERANCE)
  {
    Times(sp, w, d);
    if w != 0.0 && d > TOLERANCE {
      assert (w - low) * d >= 0.0 && low * (d - TOLERANCE) >= 0.0;
    }
  }

  lemma ClusterSaving<V(!new)>(sp: Space<V>, points: seq<Point<V>>, cs: seq<V>, j: nat, low: real)
    requires Euclidean(sp) && ValidCenters(sp, cs) && j < |cs| && ValidPoints(sp, points) && Below(low, points)
    ensures var d := sp.dist(NewCenter(sp, points, cs, j), cs[j]);
            var saved := sp.times(ClusterWeight(sp, points, cs, j), d);
            saved >= 0.0 && (d > TOLERANCE ==> saved >= low * TOLERANCE)
  {
    var w, m := ClusterWeight(sp, points, cs, j), NewCenter(sp, points, cs, j);
    assert sp.valid(m) by { MeanSaves(sp, points, cs, j); }
    Distance(sp, m, cs[j]);
    ClusterWeightBound(sp, points, cs, j, low);
    OneSaving(sp, w, low, sp.dist(m, cs[j]));
  }

  lemma {:induction false} SavingBound<V(!new)>(sp: Space<V>, points: seq<Point<V>>, cs: seq<V>, k: nat, low: real)
    requires Euclidean(sp) && ValidCenters(sp, cs) && k <= |cs| && ValidPoints(sp, points) && Below(low, points)
    ensures Saving(sp, points, cs, k) >= 0.0
    ensures (exists j :: 0 <= j < k && sp.dist(NewCenter(sp, points, cs, j), cs[j]) > TOLERANCE)
            ==> Saving(sp, points, cs, k) >= low * TOLERANCE
  {
    if k > 0 {
      SavingBound(sp, points, cs, k - 1, low);
      ClusterSaving(sp, points, cs, k - 1, low);
    }
  }

  /** Main result: an iteration never increases the objective, and one that moves some center further
      than the tolerance lowers it by at least the least positive weight times the squared tolerance. */
  lemma IterationLowersObjective<V(!new)>(sp: Space<V>, points: seq<Point<V>>, cs: seq<V>)
    requires Euclidean(sp) && ValidCenters(sp, cs) && ValidPoints(sp, points)
    ensures var ds := NewCenters(sp, points, cs);
            && ValidCenters(sp, ds) && |ds| == |cs|
            && Objective(sp, points, ds) <= Objective(sp, points, cs)
            && (Moved(sp, cs, ds) ==>
                  Objective(sp, points, ds) <= Objective(sp, points, cs) - MinWeight(points) * TOLERANCE)
    ensures Below(MinWeight(points), points)
    ensures HasWeight(points) ==> exists i :: 0 <= i < |points| && points[i].weight == MinWeight(points)
  {
    var ds := NewCenters(sp, points, cs);
    forall j | 0 <= j < |cs| ensures sp.valid(ds[j]) { MeanSaves(sp, points, cs, j); }
    ReassignCheaper(sp, points, cs, ds);
    CostIsSumOfClusters(sp, points, cs, ds);
    CostIsSumOfClusters(sp, points, cs, cs);
    SumSaves(sp, points, cs, |cs|);
    MinWeightIsLeast(points);
    SavingBound(sp, points, cs, |cs|, MinWeight(points));
    if Moved(sp, cs, ds) {
      var j :| 0 <= j < |cs| && sp.dist(ds[j], cs[j]) > TOLERANCE;
      assert ds[j] == NewCenter(sp, points, cs, j);
    }
  }

  // ----- how many iterations there can be

  /** x is less than fuel + 1 steps. */
  ghost predicate Enough(fuel: nat, step: real, x: real) {
    if fuel == 0 then x < step else Enough(fuel - 1, step, x - step)
  }

  lemma {:induction false} EnoughBelow(fuel: nat, step: real, x: real, y: real)
    requires Enough(fuel, step, x) && y <= x
    ensures Enough(fuel, step, y)
  {
    if fuel > 0 {
      EnoughBelow(fuel - 1, step, x - step, y - step);
    }
  }

  lemma {:induction false} EnoughProduct(fuel: nat, step: real, x: real)
    requires x < (fuel + 1) as real * step
    ensures Enough(fuel, step, x)
  {
    if fuel > 0 {
      assert (fuel + 1) as real * step == fuel as real * step + step;
      EnoughProduct(fuel - 1, step, x - step);
    }
  }

  lemma EnoughSteps(x: real, step: real) returns (n: nat)
    requires step > 0.0 && x >= 0.0
    ensures Enough(n, step, x)
  {
    var q := x / step;
    n := q.Floor;
    var f := (n + 1) as real - q;
    assert x == q * step && f > 0.0;
    assert f * step > 0.0;
    assert f * step == (n + 1) as real * step - x;
    EnoughProduct(n, step, x);
  }

  lemma StepDown(fuel: nat, step: real, before: real, after: real)
    requires step > 0.0 && Enough(fuel, step, before) && 0.0 <= after <= before - step
    ensures fuel > 0 && Enough(fuel - 1, step, after)
  {
    if fuel > 0 {
      EnoughBelow(fuel - 1, step, before - step, after);
    }
  }
}
