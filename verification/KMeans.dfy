/** k-means clustering with the Euclidean distance (jubatus/core/clustering/kmeans_clustering_method.cpp).
    Distances are compared through their squares: the square root is monotone. */
module KMeans {
  import opened Options
  import opened SparseVectors
  import opened Lloyd

  type WeightedPoint = Point<Sfv>

  ghost predicate Open(b: bool) { true }

  /** The operations of util.cpp; a proof that needs them opened says Open(true). */
  ghost predicate IsSparse(sp: Space<Sfv>) {
    forall b {:trigger Open(b)} :: Open(b) ==> sp == Space(SqDist, Dot, [], MulAdd, Scale, Sorted, (x, y) => x * y)
  }

  lemma SparseExists()
    ensures exists sp :: IsSparse(sp)
  {
    assert IsSparse(Space(SqDist, Dot, [], MulAdd, Scale, Sorted, (x, y) => x * y));
  }

  /** The space of sparse vectors, see SparseIs. */
  ghost function Sparse(): Space<Sfv> {
    SparseExists();
    var sp :| IsSparse(sp);
    sp
  }

  lemma SparseIs()
    ensures Sparse() == Space(SqDist, Dot, [], MulAdd, Scale, Sorted, (x, y) => x * y)
  {
    assert Open(true);
  }

  lemma OpenDot(u: Sfv, v: Sfv)
    ensures Sparse().dot(u, v) == Dot(u, v)
  {
    SparseIs();
  }

  lemma OpenSum(v: Sfv, s: real, w: Sfv)
    ensures Sparse().mulAdd(v, s, w) == MulAdd(v, s, w)
  {
    SparseIs();
  }

  lemma OpenMultiple(v: Sfv, s: real)
    ensures Sparse().scale(v, s) == Scale(v, s)
  {
    SparseIs();
  }

  lemma OpenDistance(u: Sfv, v: Sfv)
    ensures Sparse().dist(u, v) == SqDist(u, v)
  {
    SparseIs();
  }

  lemma SparseSorted(v: Sfv)
    ensures Sparse().valid(v) <==> Sorted(v)
  {
    SparseIs();
  }

  lemma SparseZero()
    ensures Sparse().zero == []
  {
    SparseIs();
  }

  lemma SparseTimes(a: real, b: real)
    ensures Sparse().times(a, b) == a * b
  {
    SparseIs();
  }

  lemma SparseSum(u: Sfv, v: Sfv, s: real, w: Sfv)
    requires Sorted(u) && Sorted(v) && Sorted(w)
    ensures var sp := Sparse();
            sp.valid(sp.mulAdd(v, s, w)) && sp.dot(u, sp.mulAdd(v, s, w)) == sp.dot(u, w) + sp.times(s, sp.dot(u, v))
  {
    var sum := MulAdd(v, s, w);
    MulAddSorted(v, s, w);
    OpenSum(v, s, w);
    SparseSorted(sum);
    OpenDot(u, sum);
    OpenDot(u, w);
    OpenDot(u, v);
    var _, _, uv := DotMulAdd(u, v, s, w);
    SparseTimes(s, uv);
  }

  lemma SparseMultiple(u: Sfv, v: Sfv, s: real)
    requires Sorted(u) && Sorted(v)
    ensures var sp := Sparse();
            && sp.valid(sp.scale(v, s)) && sp.dot(u, sp.scale(v, s)) == sp.times(s, sp.dot(u, v))
            && sp.dot(u, sp.zero) == 0.0
  {
    ScaleSorted(v, s);
    OpenMultiple(v, s);
    SparseSorted(Scale(v, s));
    OpenDot(u, Scale(v, s));
    OpenDot(u, v);
    var _, uv := DotScale(u, v, s);
    SparseTimes(s, uv);
    SparseZero();
    OpenDot(u, []);
    SparseVectors.DotZero(u);
  }

  lemma SparseDistance(u: Sfv, v: Sfv)
    requires Sorted(u) && Sorted(v)
    ensures var sp := Sparse();
            && sp.dist(u, v) == sp.dot(u, u) - 2.0 * sp.dot(v, u) + sp.dot(v, v)
            && sp.dist(u, v) >= 0.0 && sp.dist(u, u) == 0.0
  {
    OpenDistance(u, v);
    OpenDistance(u, u);
    OpenDot(u, u);
    OpenDot(v, u);
    OpenDot(v, v);
    SqDistIsDot(u, v);
    SelfDistance(u);
  }

  lemma SparseIsEuclidean()
    ensures Euclidean(Sparse())
  {
    var sp := Sparse();
    SparseZero();
    SparseSorted([]);
    forall u, v, s, w | Ask(u, v, s, w) && sp.valid(u) && sp.valid(v) && sp.valid(w) ensures Laws(sp, u, v, s, w) {
      SparseSorted(u);
      SparseSorted(v);
      SparseSorted(w);
      SparseSum(u, v, s, w);
      SparseMultiple(u, v, s);
      SparseDistance(u, v);
    }
    forall a, b | AskProduct(a, b) { SparseTimes(a, b); }
  }

  // ----- the points of each cluster

  /** The points whose first closest center is the j-th, in their order. */
  ghost function Members(points: seq<WeightedPoint>, cs: seq<Sfv>, j: nat): seq<WeightedPoint>
    requires cs != []
  {
    if points == [] then []
    else
      var n := |points| - 1;
      Members(points[..n], cs, j) + if Nearest(Sparse(), points[n].data, cs) == j then [points[n]] else []
  }

  /** How often x occurs in the first k clusters together. */
  ghost function Seen(clusters: seq<seq<WeightedPoint>>, k: nat, x: WeightedPoint): nat
    requires k <= |clusters|
  {
    if k == 0 then 0 else Seen(clusters, k - 1, x) + multiset(clusters[k - 1])[x]
  }

  lemma {:induction false} SeenAppend(clusters: seq<seq<WeightedPoint>>, j: nat, p: WeightedPoint, k: nat,
      x: WeightedPoint)
    requires j < |clusters| && k <= |clusters|
    ensures Seen(clusters[j := clusters[j] + [p]], k, x)
         == Seen(clusters, k, x) + if j < k && p == x then 1 else 0
  {
    if k > 0 {
      SeenAppend(clusters, j, p, k - 1, x);
    }
  }

  lemma {:induction false} NothingSeen(clusters: seq<seq<WeightedPoint>>, k: nat, x: WeightedPoint)
    requires k <= |clusters| && forall j :: 0 <= j < |clusters| ==> clusters[j] == []
    ensures Seen(clusters, k, x) == 0
  {
    if k > 0 {
      NothingSeen(clusters, k - 1, x);
    }
  }

  /** The clusters share out the points: every occurrence of a point is in exactly one of them. */
  ghost predicate ShareOut(clusters: seq<seq<WeightedPoint>>, points: seq<WeightedPoint>) {
    forall x :: Seen(clusters, |clusters|, x) == multiset(points)[x]
  }

  lemma ShareOutNext(clusters: seq<seq<WeightedPoint>>, j: nat, front: seq<WeightedPoint>, p: WeightedPoint)
    requires j < |clusters| && ShareOut(clusters, front)
    ensures ShareOut(clusters[j := clusters[j] + [p]], front + [p])
  {
    forall x { SeenAppend(clusters, j, p, |clusters|, x); }
  }

  /** Each center has the points closest to it, and all points are shared out. */
  ghost predicate SharedByCenter(clusters: seq<seq<WeightedPoint>>, points: seq<WeightedPoint>, cs: seq<Sfv>)
    requires cs != []
  {
    && ShareOut(clusters, points)
    && forall j :: 0 <= j < |clusters| ==> clusters[j] == Members(points, cs, j)
  }

  lemma SharedNext(clusters: seq<seq<WeightedPoint>>, points: seq<WeightedPoint>, i: nat, cs: seq<Sfv>, idx: nat)
    requires cs != [] && i < |points| && idx < |clusters| && idx == Nearest(Sparse(), points[i].data, cs)
    requires SharedByCenter(clusters, points[..i], cs)
    ensures SharedByCenter(clusters[idx := clusters[idx] + [points[i]]], points[..i + 1], cs)
  {
    var next := points[..i + 1];
    assert next[..i] == points[..i] && next == points[..i] + [points[i]];
    ShareOutNext(clusters, idx, points[..i], points[i]);
    forall j | 0 <= j < |clusters|
      ensures Members(next, cs, j) == Members(points[..i], cs, j) + if j == idx then [points[i]] else []
    {
    }
  }

  lemma SharedNone(clusters: seq<seq<WeightedPoint>>, cs: seq<Sfv>)
    requires cs != [] && forall j :: 0 <= j < |clusters| ==> clusters[j] == []
    ensures SharedByCenter(clusters, [], cs)
  {
    forall x { NothingSeen(clusters, |clusters|, x); }
  }

  // ----- util.cpp, as the operations of the space

  method Distance(u: Sfv, v: Sfv) returns (d: real)
    ensures d == Sparse().dist(u, v)
  {
    SparseIs();
    d := EuclidDistSquared(u, v);
  }

  method MulAddTo(left: Sfv, s: real, right: Sfv) returns (out: Sfv)
    requires Sparse().valid(left)
    ensures out == Sparse().mulAdd(left, s, right)
  {
    SparseIs();
    out := ScalarMulAndAdd(left, s, right);
  }

  method ScaleBy(v: Sfv, s: real) returns (out: Sfv)
    ensures out == Sparse().scale(v, s)
  {
    SparseIs();
    out := ScalarDot(v, s);
  }

  ghost function StepSize(points: seq<WeightedPoint>): (step: real)
    ensures step > 0.0
  {
    MinWeight(points) * TOLERANCE
  }

  lemma SparseIteration(points: seq<WeightedPoint>, cs: seq<Sfv>)
    requires ValidCenters(Sparse(), cs) && ValidPoints(Sparse(), points)
    ensures var ds := NewCenters(Sparse(), points, cs);
            && ValidCenters(Sparse(), ds) && |ds| == |cs|
            && 0.0 <= Objective(Sparse(), points, ds) <= Objective(Sparse(), points, cs)
            && (Moved(Sparse(), cs, ds) ==>
                Objective(Sparse(), points, ds) <= Objective(Sparse(), points, cs) - StepSize(points))
  {
    SparseIsEuclidean();
    IterationLowersObjective(Sparse(), points, cs);
    CostNonNegative(Sparse(), points, NewCenters(Sparse(), points, cs), NewCenters(Sparse(), points, cs));
  }

  // ----- what an iteration leaves

  function Mult(w: real, x: real): real {
    w * x
  }

  /** The weighted sum of one feature's values over the points closest to center j. */
  ghost function FeatureSum(points: seq<WeightedPoint>, cs: seq<Sfv>, j: nat, key: nat): real
    requires cs != []
  {
    if points == [] then 0.0
    else
      var n := |points| - 1;
      FeatureSum(points[..n], cs, j, key)
      + if Nearest(Sparse(), points[n].data, cs) == j then Mult(points[n].weight, At(points[n].data, key)) else 0.0
  }

  /** In every feature, d is the weighted mean of the points closest to center j. */
  ghost predicate IsMean(points: seq<WeightedPoint>, cs: seq<Sfv>, j: nat, d: Sfv)
    requires cs != []
  {
    forall key :: Mult(ClusterWeight(Sparse(), points, cs, j), At(d, key)) == FeatureSum(points, cs, j, key)
  }

  lemma AddedAt(p: Sfv, w: real, sum: Sfv, key: nat)
    requires Sorted(p) && Sorted(sum)
    ensures Sorted(Sparse().mulAdd(p, w, sum))
    ensures At(Sparse().mulAdd(p, w, sum), key) == At(sum, key) + Mult(w, At(p, key))
  {
    OpenSum(p, w, sum);
    MulAddedAt(p, w, sum, key);
  }

  lemma MulAddedAt(p: Sfv, w: real, sum: Sfv, key: nat)
    requires Sorted(p) && Sorted(sum)
    ensures Sorted(MulAdd(p, w, sum)) && At(MulAdd(p, w, sum), key) == At(sum, key) + Mult(w, At(p, key))
  {
    MulAddSorted(p, w, sum);
    AtMulAdd(p, w, sum, key);
  }

  lemma {:induction false} SumAt(points: seq<WeightedPoint>, cs: seq<Sfv>, j: nat, key: nat)
    requires cs != [] && ValidPoints(Sparse(), points)
    ensures Sorted(ClusterSum(Sparse(), points, cs, j))
    ensures At(ClusterSum(Sparse(), points, cs, j), key) == FeatureSum(points, cs, j, key)
  {
    if points == [] {
      SparseZero();
    } else {
      var n := |points| - 1;
      SumAt(points[..n], cs, j, key);
      SparseSorted(points[n].data);
      AddedAt(points[n].data, points[n].weight, ClusterSum(Sparse(), points[..n], cs, j), key);
    }
  }

  lemma ScaledAt(sum: Sfv, w: real, key: nat)
    requires w != 0.0
    ensures Mult(w, At(Sparse().scale(sum, 1.0 / w), key)) == At(sum, key)
  {
    OpenMultiple(sum, 1.0 / w);
    Rescaled(sum, w, 1.0 / w, key);
  }

  lemma Rescaled(sum: Sfv, w: real, inverse: real, key: nat)
    requires w != 0.0 && inverse == 1.0 / w
    ensures Mult(w, At(Scale(sum, inverse), key)) == At(sum, key)
  {
    AtScale(sum, inverse, key);
    TimesInverse(w, inverse, At(sum, key));
  }

  lemma TimesInverse(w: real, inverse: real, x: real)
    requires w != 0.0 && inverse == 1.0 / w
    ensures Mult(w, inverse * x) == x
  {
    assert w * inverse == 1.0;
    assert w * (inverse * x) == (w * inverse) * x;
  }

  lemma NewCenterIsMean(points: seq<WeightedPoint>, cs: seq<Sfv>, j: nat)
    requires j < |cs| && ValidPoints(Sparse(), points) && HasMembers(Sparse(), points, cs, j)
    ensures IsMean(points, cs, j, NewCenter(Sparse(), points, cs, j))
  {
    MembersWeigh(Sparse(), points, cs, j);
    var w := ClusterWeight(Sparse(), points, cs, j);
    forall key ensures Mult(w, At(NewCenter(Sparse(), points, cs, j), key)) == FeatureSum(points, cs, j, key) {
      SumAt(points, cs, j, key);
      ScaledAt(ClusterSum(Sparse(), points, cs, j), w, key);
    }
  }

  /** From centers cs to ds: a center with members becomes their mean, which serves them best of all vectors,
      and a center without members stays. */
  ghost predicate Recentred(points: seq<WeightedPoint>, cs: seq<Sfv>, ds: seq<Sfv>)
    requires cs != []
  {
    |ds| == |cs| && forall j :: 0 <= j < |cs| ==> RecentredAt(points, cs, j, ds[j])
  }

  ghost predicate RecentredAt(points: seq<WeightedPoint>, cs: seq<Sfv>, j: nat, d: Sfv)
    requires j < |cs|
  {
    if HasMembers(Sparse(), points, cs, j) then IsMean(points, cs, j, d) && Serves(Sparse(), points, cs, j, d)
    else d == cs[j]
  }

  lemma NewCentersRecentre(points: seq<WeightedPoint>, cs: seq<Sfv>)
    requires ValidCenters(Sparse(), cs) && ValidPoints(Sparse(), points)
    ensures Recentred(points, cs, NewCenters(Sparse(), points, cs))
  {
    SparseIsEuclidean();
    forall j | 0 <= j < |cs| ensures RecentredAt(points, cs, j, NewCenter(Sparse(), points, cs, j)) {
      NewCenterServes(Sparse(), points, cs, j);
      if HasMembers(Sparse(), points, cs, j) {
        NewCenterIsMean(points, cs, j);
      }
    }
  }

  // ----- the code

  method MinDist(x: Sfv, cs: seq<Sfv>) returns (idx: nat, best: real)
    requires cs != []
    ensures idx == Nearest(Sparse(), x, cs) && best == Sparse().dist(x, cs[idx])
  {
    idx := 0;
    best := Distance(x, cs[0]);
    for i := 1 to |cs|
      invariant idx == NearestUpTo(Sparse(), x, cs, i) && best == Sparse().dist(x, cs[idx])
    {
      var d := Distance(x, cs[i]);
      if best > d {
        idx, best := i, d;
      }
    }
  }

  /** The loop over the points: sums and weights of all clusters. */
  method Accumulate(points: seq<WeightedPoint>, cs: seq<Sfv>) returns (sums: seq<Sfv>, counts: seq<real>)
    requires ValidCenters(Sparse(), cs) && ValidPoints(Sparse(), points)
    ensures |sums| == |counts| == |cs|
    ensures forall j :: 0 <= j < |cs| ==>
              sums[j] == ClusterSum(Sparse(), points, cs, j) && counts[j] == ClusterWeight(Sparse(), points, cs, j)
  {
    SparseZero();
    sums, counts := seq(|cs|, _ => []), seq(|cs|, _ => 0.0);
    for i := 0 to |points|
      invariant |sums| == |counts| == |cs|
      invariant forall j :: 0 <= j < |cs| ==>
        sums[j] == ClusterSum(Sparse(), points[..i], cs, j) && counts[j] == ClusterWeight(Sparse(), points[..i], cs, j)
    {
      var p := points[i];
      assert points[..i + 1][..i] == points[..i];
      var idx, _ := MinDist(p.data, cs);
      var sum := MulAddTo(p.data, p.weight, sums[idx]);
      sums := sums[idx := sum];
      counts := counts[idx := counts[idx] + p.weight];
    }
    assert points[..|points|] == points;
  }

  /** One pass of the while loop. */
  method Iterate(points: seq<WeightedPoint>, cs: seq<Sfv>) returns (ds: seq<Sfv>, terminated: bool)
    requires ValidCenters(Sparse(), cs) && ValidPoints(Sparse(), points)
    ensures ds == NewCenters(Sparse(), points, cs)
    ensures Recentred(points, cs, ds)
    ensures terminated <==> !Moved(Sparse(), cs, ds)
  {
    NewCentersRecentre(points, cs);
    var sums, counts := Accumulate(points, cs);
    terminated := true;
    ds := sums;
    for i := 0 to |cs|
      invariant |ds| == |cs|
      invariant forall j :: 0 <= j < i ==> ds[j] == NewCenter(Sparse(), points, cs, j)
      invariant forall j :: i <= j < |cs| ==> ds[j] == sums[j]
      invariant terminated <==> forall j :: 0 <= j < i ==> Sparse().dist(ds[j], cs[j]) <= TOLERANCE
    {
      if counts[i] == 0.0 {
        ds := ds[i := cs[i]];
        SparseSorted(cs[i]);
        SparseDistance(cs[i], cs[i]);
        continue;
      }
      var scaled := ScaleBy(ds[i], 1.0 / counts[i]);
      ds := ds[i := scaled];
      var d := Distance(ds[i], cs[i]);
      if d > TOLERANCE {
        terminated := false;
      }
    }
  }

  /** The centers are the means of an iteration that moved none of them further than the tolerance. */
  ghost predicate Settled(points: seq<WeightedPoint>, ds: seq<Sfv>) {
    exists cs :: ValidCenters(Sparse(), cs) && Recentred(points, cs, ds) && !Moved(Sparse(), cs, ds)
                 && ds == NewCenters(Sparse(), points, cs)
  }

  class KMeansClustering {
    const k: nat
    var kcenters: seq<Sfv>

    constructor (k: nat)
      requires 1 <= k
      ensures this.k == k && kcenters == []
    {
      this.k := k;
      kcenters := [];
    }

    /** Seeding: the first point, then points drawn at random. */
    method InitializeCenters(points: seq<WeightedPoint>)
      requires 1 <= k && ValidPoints(Sparse(), points)
      modifies this
      ensures |points| < k ==> kcenters == old(kcenters)
      ensures |points| >= k ==> |kcenters| == k && ValidCenters(Sparse(), kcenters) && kcenters[0] == points[0].data
      ensures |points| >= k ==> forall j :: 0 <= j < k ==>
                exists i :: 0 <= i < |points| && kcenters[j] == points[i].data
    {
      if |points| < k {
        return;
      }
      kcenters := [points[0].data];
      while |kcenters| < k
        invariant 1 <= |kcenters| <= k && kcenters[0] == points[0].data
        invariant forall j :: 0 <= j < |kcenters| ==> exists i :: 0 <= i < |points| && kcenters[j] == points[i].data
      {
        var i :| 0 <= i < |points|;
        kcenters := kcenters + [points[i].data];
      }
    }

    /** Terminates for every input with non-negative weights: `fuel` bounds the iterations still to come. */
    method DoBatchUpdate(points: seq<WeightedPoint>)
      requires ValidPoints(Sparse(), points)
      requires |points| >= k ==> |kcenters| == k && ValidCenters(Sparse(), kcenters)
      modifies this
      ensures |points| < k ==> kcenters == old(kcenters)
      ensures |points| >= k ==> |kcenters| == k && ValidCenters(Sparse(), kcenters) && Settled(points, kcenters)
      ensures |points| >= k ==> Objective(Sparse(), points, kcenters) <= old(Objective(Sparse(), points, kcenters))
    {
      var terminated := false;
      if |points| < k {
        return;
      }
      SparseIteration(points, kcenters);
      ghost var fuel := EnoughSteps(Objective(Sparse(), points, kcenters), StepSize(points));
      while !terminated
        invariant |kcenters| == k && ValidCenters(Sparse(), kcenters)
        invariant Objective(Sparse(), points, kcenters) <= old(Objective(Sparse(), points, kcenters))
        invariant terminated ==> Settled(points, kcenters)
        invariant terminated || Enough(fuel, StepSize(points), Objective(Sparse(), points, kcenters))
        decreases !terminated, fuel
      {
        SparseIteration(points, kcenters);
        var ds;
        ds, terminated := Iterate(points, kcenters);
        if !terminated {
          StepDown(fuel, StepSize(points), Objective(Sparse(), points, kcenters), Objective(Sparse(), points, ds));
          fuel := fuel - 1;
        }
        kcenters := ds;
      }
    }

    method BatchUpdate(points: seq<WeightedPoint>)
      requires 1 <= k && ValidPoints(Sparse(), points)
      modifies this
      ensures points == [] ==> kcenters == []
      ensures 0 < |points| < k ==> kcenters == old(kcenters)
      ensures |points| >= k ==> |kcenters| == k && Settled(points, kcenters)
    {
      if points == [] {
        kcenters := [];
        return;
      }
      InitializeCenters(points);
      DoBatchUpdate(points);
    }

    /** None where the source throws: nothing was clustered yet. */
    method GetClusters(points: seq<WeightedPoint>) returns (r: Option<seq<seq<WeightedPoint>>>)
      requires kcenters == [] || |kcenters| == k
      ensures r.None? <==> kcenters == []
      ensures r.Some? ==> |r.value| == k && ShareOut(r.value, points)
      ensures r.Some? ==> forall j :: 0 <= j < k ==> r.value[j] == Members(points, kcenters, j)
    {
      if kcenters == [] {
        return None;
      }
      var ret: seq<seq<WeightedPoint>> := seq(k, _ => []);
      SharedNone(ret, kcenters);
      for i := 0 to |points|
        invariant |ret| == k && SharedByCenter(ret, points[..i], kcenters)
      {
        var idx, _ := MinDist(points[i].data, kcenters);
        SharedNext(ret, points, i, kcenters, idx);
        ret := ret[idx := ret[idx] + [points[i]]];
      }
      assert points[..|points|] == points;
      return Some(ret);
    }
  }
}
