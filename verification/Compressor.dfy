/** The coreset compressor: how many points it keeps and what happens to the total weight
    (jubatus/core/clustering/kmeans_compressor.cpp). Random draws are arbitrary valid indices,
    the distance is an arbitrary given function. */
module Compressor {

  /** A weighted point; `data` stands for its feature vector. */
  datatype Point = Point(data: nat, weight: real)

  /** Compares the feature vectors of two points. */
  type Distance = (nat, nat) -> real

  function Total(ps: seq<Point>): real {
    if ps == [] then 0.0 else Total(ps[..|ps| - 1]) + ps[|ps| - 1].weight
  }

  ghost predicate NonNegative(ps: seq<Point>) {
    forall i :: 0 <= i < |ps| ==> ps[i].weight >= 0.0
  }

  lemma {:induction false} TotalAppend(a: seq<Point>, b: seq<Point>)
    ensures Total(a + b) == Total(a) + Total(b)
  {
    if b == [] {
      assert a + b == a;
    } else {
      var n := |b| - 1;
      assert (a + b)[..|a + b| - 1] == a + b[..n];
      TotalAppend(a, b[..n]);
    }
  }

  lemma TotalNext(ps: seq<Point>, i: nat)
    requires i < |ps|
    ensures Total(ps[..i + 1]) == Total(ps[..i]) + ps[i].weight
  {
    assert ps[..i + 1][..i] == ps[..i];
  }

  lemma {:induction false} TotalUpdate(ps: seq<Point>, i: nat, p: Point)
    requires i < |ps|
    ensures Total(ps[i := p]) == Total(ps) - ps[i].weight + p.weight
  {
    var n := |ps| - 1;
    if i == n {
      assert ps[i := p][..n] == ps[..n];
    } else {
      assert ps[i := p][..n] == ps[..n][i := p];
      TotalUpdate(ps[..n], i, p);
    }
  }

  /** Negative weights become zero. */
  function Clamp(ps: seq<Point>): seq<Point> {
    seq(|ps|, i requires 0 <= i < |ps| => if ps[i].weight < 0.0 then ps[i].(weight := 0.0) else ps[i])
  }

  /** Each weight is kept if it is not negative and zero if it is. */
  ghost predicate ClampedTo(ps: seq<Point>, qs: seq<Point>) {
    && |qs| == |ps| && NonNegative(qs) && (forall i :: 0 <= i < |ps| ==> qs[i].data == ps[i].data)
    && (forall i :: 0 <= i < |ps| ==> qs[i].weight == ps[i].weight || ps[i].weight < 0.0 == qs[i].weight)
  }

  lemma {:induction false} ClampNeverLess(ps: seq<Point>)
    ensures Total(Clamp(ps)) >= Total(ps) && ClampedTo(ps, Clamp(ps))
    ensures NonNegative(ps) ==> Clamp(ps) == ps
  {
    if ps != [] {
      var n := |ps| - 1;
      assert Clamp(ps)[..n] == Clamp(ps[..n]);
      ClampNeverLess(ps[..n]);
    }
  }

  // ----- library pieces

  /** The first closest of the first n points. */
  function ClosestUpTo(x: Point, ps: seq<Point>, dist: Distance, n: nat): (m: nat)
    requires 0 < n <= |ps|
    ensures m < n
  {
    if n == 1 then 0
    else
      var m := ClosestUpTo(x, ps, dist, n - 1);
      if dist(ps[m].data, x.data) > dist(ps[n - 1].data, x.data) then n - 1 else m
  }

  function Closest(x: Point, ps: seq<Point>, dist: Distance): (m: nat)
    requires ps != []
    ensures m < |ps|
  {
    ClosestUpTo(x, ps, dist, |ps|)
  }

  function LeastDistance(x: Point, ps: seq<Point>, dist: Distance): real
    requires ps != []
  {
    dist(ps[Closest(x, ps, dist)].data, x.data)
  }

  lemma {:induction false} ClosestIsLeast(x: Point, ps: seq<Point>, dist: Distance, n: nat, i: nat)
    requires i < n <= |ps|
    ensures var m := ClosestUpTo(x, ps, dist, n);
            dist(ps[m].data, x.data) <= dist(ps[i].data, x.data)
            && (i < m ==> dist(ps[m].data, x.data) < dist(ps[i].data, x.data))
  {
    if n > 1 && i < n - 1 {
      ClosestIsLeast(x, ps, dist, n - 1, i);
    }
  }

  lemma {:induction false} ClosestByData(x: Point, a: seq<Point>, b: seq<Point>, dist: Distance, n: nat)
    requires 0 < n <= |a| == |b| && forall i :: 0 <= i < |a| ==> a[i].data == b[i].data
    ensures ClosestUpTo(x, a, dist, n) == ClosestUpTo(x, b, dist, n)
  {
    if n > 1 {
      ClosestByData(x, a, b, dist, n - 1);
    }
  }

  method MinDist(x: Point, ps: seq<Point>, dist: Distance) returns (idx: nat, best: real)
    requires ps != []
    ensures idx == Closest(x, ps, dist) && best == LeastDistance(x, ps, dist)
    ensures forall i :: 0 <= i < |ps| ==> best <= dist(ps[i].data, x.data)
    ensures forall i :: 0 <= i < idx ==> best < dist(ps[i].data, x.data)
  {
    idx, best := 0, dist(ps[0].data, x.data);
    for i := 1 to |ps|
      invariant idx == ClosestUpTo(x, ps, dist, i) && best == dist(ps[idx].data, x.data)
    {
      var d := dist(ps[i].data, x.data);
      if best > d {
        idx, best := i, d;
      }
    }
    forall i | 0 <= i < |ps| { ClosestIsLeast(x, ps, dist, |ps|, i); }
  }

  method Draw(n: nat, count: nat) returns (drawn: set<nat>)
    requires 0 < n
    ensures |drawn| <= count && (0 < count ==> drawn != {}) && forall x :: x in drawn ==> x < n
  {
    drawn := {};
    for c := 0 to count
      invariant |drawn| <= c && (0 < c ==> drawn != {}) && forall x :: x in drawn ==> x < n
    {
      var x: nat :| x < n;
      drawn := drawn + {x};
    }
  }

  ghost function Below(s: set<nat>, x: nat): set<nat> {
    set y | y in s && y < x
  }

  /** The elements of a set in ascending order. */
  method Ascending(s: set<nat>, n: nat) returns (ind: seq<nat>)
    requires forall x :: x in s ==> x < n
    ensures |ind| == |s| && forall x :: x in s <==> x in ind
    ensures forall i, j :: 0 <= i < j < |ind| ==> ind[i] < ind[j]
  {
    ind := [];
    assert Below(s, 0) == {};
    for x := 0 to n
      invariant |ind| == |Below(s, x)| && forall y :: y in Below(s, x) <==> y in ind
      invariant forall i, j :: 0 <= i < j < |ind| ==> ind[i] < ind[j]
    {
      if x in s {
        assert Below(s, x + 1) == Below(s, x) + {x};
        assert forall i :: 0 <= i < |ind| ==> ind[i] in ind;
        ind := ind + [x];
      } else {
        assert Below(s, x + 1) == Below(s, x);
      }
    }
    assert Below(s, n) == s;
  }

  ghost predicate AscendingBelow(ind: seq<nat>, n: nat) {
    && (forall i :: 0 <= i < |ind| ==> ind[i] < n)
    && forall i, j :: 0 <= i < j < |ind| ==> ind[i] < ind[j]
  }

  /** Draws `count` indices below n, sorts them and drops repetitions. */
  method DrawDistinct(n: nat, count: nat) returns (ind: seq<nat>)
    requires 0 < n
    ensures |ind| <= count && (0 < count ==> ind != []) && AscendingBelow(ind, n)
  {
    var drawn := Draw(n, count);
    ind := Ascending(drawn, n);
    assert forall i :: 0 <= i < |ind| ==> ind[i] in drawn;
  }

  type Scored = (real, Point)

  ghost predicate Ordered(a: seq<Scored>, b: seq<Scored>) {
    forall i, j :: 0 <= i < |a| && 0 <= j < |b| ==> a[i].0 <= b[j].0
  }

  method IndexOfLeast(pairs: seq<Scored>) returns (m: nat)
    requires pairs != []
    ensures m < |pairs| && Ordered([pairs[m]], pairs)
  {
    m := 0;
    for i := 1 to |pairs|
      invariant m < |pairs| && forall j :: 0 <= j < i ==> pairs[m].0 <= pairs[j].0
    {
      if pairs[i].0 < pairs[m].0 {
        m := i;
      }
    }
  }

  ghost predicate InOrder(a: seq<Scored>) {
    forall i, j :: 0 <= i < j < |a| ==> a[i].0 <= a[j].0
  }

  lemma OneMore(kept: seq<Scored>, dropped: seq<Scored>, m: nat)
    requires m < |dropped| && Ordered(kept, dropped) && InOrder(kept) && Ordered([dropped[m]], dropped)
    ensures Ordered(kept + [dropped[m]], dropped[..m] + dropped[m + 1..]) && InOrder(kept + [dropped[m]])
  {
    var rest := dropped[..m] + dropped[m + 1..];
    forall j | 0 <= j < |rest| ensures rest[j] == dropped[if j < m then j else j + 1] {
    }
    assert forall j :: 0 <= j < |dropped| ==> [dropped[m]][0].0 <= dropped[j].0;
  }

  lemma WithoutOne(pairs: seq<Scored>, m: nat)
    requires m < |pairs|
    ensures multiset([pairs[m]]) + multiset(pairs[..m] + pairs[m + 1..]) == multiset(pairs)
  {
    assert pairs == pairs[..m] + [pairs[m]] + pairs[m + 1..];
  }

  ghost function Points(pairs: seq<Scored>): seq<Point> {
    seq(|pairs|, i requires 0 <= i < |pairs| => pairs[i].1)
  }

  lemma PointsWithoutOne(pairs: seq<Scored>, kept: seq<Scored>, m: nat)
    requires m < |pairs|
    ensures multiset(Points(kept + [pairs[m]])) + multiset(Points(pairs[..m] + pairs[m + 1..]))
         == multiset(Points(kept)) + multiset(Points(pairs))
  {
    var ps := Points(pairs);
    assert Points(kept + [pairs[m]]) == Points(kept) + [ps[m]];
    assert Points(pairs[..m] + pairs[m + 1..]) == ps[..m] + ps[m + 1..];
    assert ps == ps[..m] + [ps[m]] + ps[m + 1..];
  }

  /** std::partial_sort: the `size` pairs with the smallest scores, in order, and the others. */
  method PartialSort(pairs: seq<Scored>, size: nat) returns (kept: seq<Scored>, dropped: seq<Scored>)
    ensures |kept| == if size < |pairs| then size else |pairs|
    ensures multiset(kept) + multiset(dropped) == multiset(pairs)
    ensures multiset(Points(kept)) + multiset(Points(dropped)) == multiset(Points(pairs))
    ensures Ordered(kept, dropped) && InOrder(kept)
  {
    kept, dropped := [], pairs;
    while |kept| < size && dropped != []
      invariant |kept| + |dropped| == |pairs| && |kept| <= size
      invariant multiset(kept) + multiset(dropped) == multiset(pairs)
      invariant multiset(Points(kept)) + multiset(Points(dropped)) == multiset(Points(pairs))
      invariant Ordered(kept, dropped) && InOrder(kept)
      decreases |dropped|
    {
      var m := IndexOfLeast(dropped);
      WithoutOne(dropped, m);
      PointsWithoutOne(dropped, kept, m);
      OneMore(kept, dropped, m);
      kept, dropped := kept + [dropped[m]], dropped[..m] + dropped[m + 1..];
    }
  }

  ghost function Pairs(scores: seq<real>, pool: seq<Point>): seq<Scored>
    requires |scores| == |pool|
  {
    seq(|pool|, i requires 0 <= i < |pool| && |scores| == |pool| => (scores[i], pool[i]))
  }

  /** partial_sort_by: cuts the pool down to the `size` points with the smallest scores. */
  method PartialSortBy(scores: seq<real>, pool: seq<Point>, size: nat)
      returns (out: seq<Point>, ghost kept: seq<Scored>, ghost dropped: seq<Scored>)
    requires |scores| == |pool|
    ensures |out| == if size < |pool| then size else |pool|
    ensures out == Points(kept) && multiset(out) + multiset(Points(dropped)) == multiset(pool)
    ensures multiset(kept) + multiset(dropped) == multiset(Pairs(scores, pool)) && Ordered(kept, dropped)
    ensures forall p :: p in out ==> p in pool
  {
    var pairs := seq(|pool|, i requires 0 <= i < |pool| && |scores| == |pool| => (scores[i], pool[i]));
    assert pairs == Pairs(scores, pool);
    var best, others := PartialSort(pairs, size);
    out := seq(|best|, i requires 0 <= i < |best| => best[i].1);
    kept, dropped := best, others;
    assert Points(pairs) == pool;
    forall i | 0 <= i < |kept| ensures kept[i].1 in pool {
      assert kept[i] in multiset(kept) && kept[i] in multiset(pairs);
    }
  }

  // ----- get_bicriteria

  function Times(x: real, y: real): real { x * y }

  /** The fraction r of the loop, for a positive value of the exponential. */
  function Fraction(exp: real): real {
    var r := (1.0 - exp) / 2.0;
    if r < 0.1 then 0.1 else r
  }

  /** How many of n points stay in the pool, for share = n * r. */
  function Remaining(n: nat, share: real): nat
    requires share >= 0.0
  {
    var size := if share.Floor < n then share.Floor else n;
    if size == 0 then 1 else size
  }

  lemma HalfProduct(x: real, r: real, share: real)
    requires 0.0 <= r <= 0.5 && 0.0 <= x && share == Times(x, r)
    ensures 0.0 <= share && 2.0 * share <= x
  {
    assert x * (0.5 - r) >= 0.0;
  }

  lemma FractionRange(exp: real)
    requires exp > 0.0
    ensures 0.1 <= Fraction(exp) <= 0.5
    ensures Fraction(exp) >= (1.0 - exp) / 2.0 && (Fraction(exp) == 0.1 || Fraction(exp) == (1.0 - exp) / 2.0)
  {
  }

  /** The fraction never exceeds one half, so every pass at least halves the pool. */
  lemma FractionHalves(exp: real, n: nat)
    requires exp > 0.0 && 1 < n
    ensures 0.1 <= Fraction(exp) <= 0.5 && 0.0 <= Times(n as real, Fraction(exp))
    ensures var share := Times(n as real, Fraction(exp)); var left := Remaining(n, share);
            1 <= left && 2 * left <= n && left == if share.Floor < 1 then 1 else share.Floor
  {
    FractionRange(exp);
    var share := Times(n as real, Fraction(exp));
    HalfProduct(n as real, Fraction(exp), share);
    HalfFloor(n, share);
  }

  lemma HalfFloor(n: nat, share: real)
    requires 1 < n && 0.0 <= share && 2.0 * share <= n as real
    ensures 1 <= Remaining(n, share) && 2 * Remaining(n, share) <= n
    ensures Remaining(n, share) == if share.Floor < 1 then 1 else share.Floor
  {
  }

  /** One pass over the pool: the points drawn by index join the centers, and the pool is split into the points
      left and those gone. */
  datatype Pass = Pass(pool: seq<Point>, drawn: seq<nat>, centers: seq<Point>, left: seq<Point>, gone: seq<Point>)

  function Picked(pool: seq<Point>, ind: seq<nat>): seq<Point>
    requires forall i :: 0 <= i < |ind| ==> ind[i] < |pool|
  {
    seq(|ind|, i requires 0 <= i < |ind| => pool[ind[i]])
  }

  /** No point that is gone is further from its closest center than one that is left. */
  ghost predicate Furthest(left: seq<Point>, gone: seq<Point>, centers: seq<Point>, dist: Distance)
    requires centers != []
  {
    forall i, j :: 0 <= i < |left| && 0 <= j < |gone| ==>
      LeastDistance(gone[j], centers, dist) <= LeastDistance(left[i], centers, dist)
  }

  /** The pool is split into the r-th part of it that is furthest from the centers, at least one point, and the
      rest. */
  ghost predicate Splits(pool: seq<Point>, left: seq<Point>, gone: seq<Point>, centers: seq<Point>, r: real,
                         dist: Distance)
    requires centers != []
  {
    && multiset(left) + multiset(gone) == multiset(pool) && Furthest(left, gone, centers, dist)
    && |left| == if Times(|pool| as real, r).Floor < 1 then 1 else Times(|pool| as real, r).Floor
  }

  /** A pass that starts with the centers `before` and draws at most `draws` points. */
  ghost predicate IsPass(p: Pass, before: seq<Point>, draws: nat, r: real, dist: Distance) {
    && 0 < |p.drawn| <= draws && AscendingBelow(p.drawn, |p.pool|) && p.centers == before + Picked(p.pool, p.drawn)
    && Splits(p.pool, p.left, p.gone, p.centers, r, dist)
  }

  ghost function CentersAfter(passes: seq<Pass>, n: nat): seq<Point>
    requires n <= |passes|
  {
    if n == 0 then [] else passes[n - 1].centers
  }

  ghost function PoolAfter(src: seq<Point>, passes: seq<Pass>, n: nat): seq<Point>
    requires n <= |passes|
  {
    if n == 0 then src else passes[n - 1].left
  }

  ghost function DrawsAfter(bsize: nat, passes: seq<Pass>, n: nat): nat
    requires n <= |passes|
  {
    if n == 0 then bsize else |passes[n - 1].drawn|
  }

  ghost predicate PassAt(src: seq<Point>, bsize: nat, dstsize: nat, r: real, dist: Distance, passes: seq<Pass>,
                         n: nat)
    requires n < |passes|
  {
    && IsPass(passes[n], CentersAfter(passes, n), DrawsAfter(bsize, passes, n), r, dist)
    && passes[n].pool == PoolAfter(src, passes, n) && 1 < |passes[n].pool| && |CentersAfter(passes, n)| < dstsize
  }

  ghost predicate ArePasses(src: seq<Point>, bsize: nat, dstsize: nat, r: real, dist: Distance, passes: seq<Pass>) {
    forall n :: 0 <= n < |passes| ==> PassAt(src, bsize, dstsize, r, dist, passes, n)
  }

  lemma PassesGrow(src: seq<Point>, bsize: nat, dstsize: nat, r: real, dist: Distance, passes: seq<Pass>, p: Pass)
    requires ArePasses(src, bsize, dstsize, r, dist, passes)
    requires IsPass(p, CentersAfter(passes, |passes|), DrawsAfter(bsize, passes, |passes|), r, dist)
    requires p.pool == PoolAfter(src, passes, |passes|) && 1 < |p.pool|
    requires |CentersAfter(passes, |passes|)| < dstsize
    ensures ArePasses(src, bsize, dstsize, r, dist, passes + [p])
  {
    var all := passes + [p];
    forall n | 0 <= n < |all| ensures PassAt(src, bsize, dstsize, r, dist, all, n) {
      if n < |passes| {
        assert PassAt(src, bsize, dstsize, r, dist, passes, n);
      }
    }
  }

  /** The score of a point in the pool is minus its distance to the closest center. */
  ghost predicate ScoresOf(scores: seq<real>, pool: seq<Point>, centers: seq<Point>, dist: Distance)
    requires centers != []
  {
    |scores| == |pool| && forall i :: 0 <= i < |pool| ==> scores[i] == -LeastDistance(pool[i], centers, dist)
  }

  lemma ScoredPair(scores: seq<real>, pool: seq<Point>, centers: seq<Point>, dist: Distance, x: Scored)
    requires centers != [] && ScoresOf(scores, pool, centers, dist) && x in multiset(Pairs(scores, pool))
    ensures x.0 == -LeastDistance(x.1, centers, dist)
  {
    assert x in Pairs(scores, pool);
  }

  lemma SmallestScoreIsFurthest(scores: seq<real>, pool: seq<Point>, centers: seq<Point>, dist: Distance,
                                kept: seq<Scored>, dropped: seq<Scored>)
    requires centers != [] && ScoresOf(scores, pool, centers, dist)
    requires multiset(kept) + multiset(dropped) == multiset(Pairs(scores, pool)) && Ordered(kept, dropped)
    ensures Furthest(Points(kept), Points(dropped), centers, dist)
  {
    var left, gone := Points(kept), Points(dropped);
    forall i, j | 0 <= i < |left| && 0 <= j < |gone|
      ensures LeastDistance(gone[j], centers, dist) <= LeastDistance(left[i], centers, dist)
    {
      assert kept[i] in multiset(kept) && dropped[j] in multiset(dropped);
      ScoredPair(scores, pool, centers, dist, kept[i]);
      ScoredPair(scores, pool, centers, dist, dropped[j]);
    }
  }

  method Score(pool: seq<Point>, centers: seq<Point>, dist: Distance) returns (scores: seq<real>)
    requires centers != []
    ensures ScoresOf(scores, pool, centers, dist)
  {
    scores := [];
    for i := 0 to |pool|
      invariant |scores| == i && forall j :: 0 <= j < i ==> scores[j] == -LeastDistance(pool[j], centers, dist)
    {
      var _, d := MinDist(pool[i], centers, dist);
      scores := scores + [-d];
    }
  }

  /** The end of the loop body in get_bicriteria. */
  method Narrow(pool: seq<Point>, centers: seq<Point>, exp: real, dist: Distance)
      returns (left: seq<Point>, ghost gone: seq<Point>)
    requires 1 < |pool| && centers != [] && exp > 0.0
    ensures Splits(pool, left, gone, centers, Fraction(exp), dist) && 2 * |left| <= |pool|
  {
    var scores := Score(pool, centers, dist);
    FractionHalves(exp, |pool|);
    var share := Times(|pool| as real, Fraction(exp));
    ghost var kept, dropped;
    left, kept, dropped := PartialSortBy(scores, pool, Remaining(|pool|, share));
    SmallestScoreIsFurthest(scores, pool, centers, dist, kept, dropped);
    gone := Points(dropped);
  }

  /** One round of the loop in get_bicriteria. */
  method OnePass(pool: seq<Point>, before: seq<Point>, draws: nat, exp: real, dist: Distance)
      returns (centers: seq<Point>, left: seq<Point>, drawn: nat, ghost p: Pass)
    requires 1 < |pool| && 1 <= draws && exp > 0.0
    ensures p.pool == pool && p.centers == centers && p.left == left && |p.drawn| == drawn
    ensures IsPass(p, before, draws, Fraction(exp), dist) && 2 * |left| <= |pool|
  {
    var ind := DrawDistinct(|pool|, draws);
    drawn := |ind|;
    centers := before;
    for i := 0 to |ind|
      invariant centers == before + Picked(pool, ind)[..i]
    {
      centers := centers + [pool[ind[i]]];
    }
    assert Picked(pool, ind)[..|ind|] == Picked(pool, ind);
    ghost var gone;
    left, gone := Narrow(pool, centers, exp, dist);
    p := Pass(pool, ind, centers, left, gone);
  }

  lemma PassFrom(src: seq<Point>, p: Pass, before: seq<Point>, draws: nat, r: real, dist: Distance)
    requires IsPass(p, before, draws, r, dist) && forall x :: x in p.pool || x in before ==> x in src
    ensures forall x :: x in p.left || x in p.centers ==> x in src
    ensures |p.centers| <= |before| + draws
  {
    forall x | x in p.left ensures x in p.pool {
      assert x in multiset(p.left) + multiset(p.gone);
    }
  }

  lemma {:induction false} PassesFrom(src: seq<Point>, bsize: nat, dstsize: nat, r: real, dist: Distance,
                                      passes: seq<Pass>, n: nat)
    requires ArePasses(src, bsize, dstsize, r, dist, passes) && n <= |passes|
    ensures forall p :: p in PoolAfter(src, passes, n) || p in CentersAfter(passes, n) ==> p in src
    ensures |CentersAfter(passes, n)| < dstsize + bsize || n == 0
    ensures DrawsAfter(bsize, passes, n) <= bsize
  {
    if n > 0 {
      PassesFrom(src, bsize, dstsize, r, dist, passes, n - 1);
      assert PassAt(src, bsize, dstsize, r, dist, passes, n - 1);
      PassFrom(src, passes[n - 1], CentersAfter(passes, n - 1), DrawsAfter(bsize, passes, n - 1), r, dist);
    }
  }

  /** Rough centers, pass by pass until the pool or the room is used up; terminates because each pass keeps at
      most half of the pool. */
  method GetBicriteria(src: seq<Point>, bsize: nat, dstsize: nat, exp: real, dist: Distance)
      returns (dst: seq<Point>, ghost passes: seq<Pass>)
    requires 1 <= bsize && exp > 0.0
    ensures ArePasses(src, bsize, dstsize, Fraction(exp), dist, passes) && dst == CentersAfter(passes, |passes|)
    ensures |PoolAfter(src, passes, |passes|)| <= 1 || |dst| >= dstsize
    ensures forall p :: p in dst ==> p in src
    ensures |dst| < dstsize + bsize
    ensures 1 < |src| && 0 < dstsize ==> dst != []
  {
    dst, passes := [], [];
    var resid := src;
    var draws := bsize;  // the vector of draws only ever gets shorter
    while |resid| > 1 && |dst| < dstsize
      invariant ArePasses(src, bsize, dstsize, Fraction(exp), dist, passes)
      invariant dst == CentersAfter(passes, |passes|) && resid == PoolAfter(src, passes, |passes|)
      invariant draws == DrawsAfter(bsize, passes, |passes|) && 1 <= draws
      invariant passes == [] || dst != []
      decreases |resid|
    {
      ghost var p;
      ghost var before := passes;
      dst, resid, draws, p := OnePass(resid, dst, draws, exp, dist);
      PassesGrow(src, bsize, dstsize, Fraction(exp), dist, passes, p);
      passes := passes + [p];
    }
    PassesFrom(src, bsize, dstsize, Fraction(exp), dist, passes, |passes|);
  }

  // ----- samples and the final coreset

  function Ceil(x: real): int { -((-x).Floor) }

  /** What a point adds to the weighted squared distances, scaled to the total weight. */
  function Load(weight: real, d2: real, weightSum: real, squaredSum: real): real
    requires squaredSum > 0.0
  {
    weightSum * (d2 * weight / squaredSum)
  }

  /** The unnormalised sampling weight of a point at squared distance d2 from the rough centers. */
  function Probability(weight: real, d2: real, weightSum: real, squaredSum: real): real
    requires squaredSum > 0.0
  {
    Ceil(Load(weight, d2, weightSum, squaredSum)) as real + 1.0
  }

  /** The scaling keeps proportions: load : weightSum as d2 * weight : squaredSum. */
  lemma LoadIsShare(weight: real, d2: real, weightSum: real, squaredSum: real)
    requires weight >= 0.0 && d2 >= 0.0 && weightSum >= 0.0 && squaredSum > 0.0
    ensures var x := Load(weight, d2, weightSum, squaredSum);
            x >= 0.0 && Times(x, squaredSum) == Times(weightSum, Times(d2, weight))
  {
    assert d2 * weight >= 0.0;
    var q := d2 * weight / squaredSum;
    assert q >= 0.0 && q * squaredSum == d2 * weight;
    assert weightSum * q >= 0.0;
    assert (weightSum * q) * squaredSum == weightSum * (q * squaredSum);
  }

  /** The sampling weight is a whole number, by one to two larger than the load, so at least 1. */
  lemma ProbabilityAtLeastOne(weight: real, d2: real, weightSum: real, squaredSum: real)
    requires weight >= 0.0 && d2 >= 0.0 && weightSum >= 0.0 && squaredSum > 0.0
    ensures var p, x := Probability(weight, d2, weightSum, squaredSum), Load(weight, d2, weightSum, squaredSum);
            && Times(x, squaredSum) == Times(weightSum, Times(d2, weight))
            && p >= 1.0 && p == p.Floor as real && x + 1.0 <= p < x + 2.0
  {
    LoadIsShare(weight, d2, weightSum, squaredSum);
    CeilBounds(Load(weight, d2, weightSum, squaredSum));
  }

  lemma CeilBounds(x: real)
    requires x >= 0.0
    ensures var p := Ceil(x) as real + 1.0;
            p >= 1.0 && p == p.Floor as real && x + 1.0 <= p < x + 2.0
  {
    assert Ceil(x) as real + 1.0 == (Ceil(x) + 1) as real;
  }

  /** The point is one of src, up to its weight. */
  ghost predicate SampledFrom(src: seq<Point>, p: Point) {
    exists k :: 0 <= k < |src| && src[k].data == p.data
  }

  ghost predicate AllSampled(src: seq<Point>, dst: seq<Point>) {
    forall i :: 0 <= i < |dst| ==> SampledFrom(src, dst[i])
  }

  lemma SquareNonNegative(x: real)
    ensures Times(x, x) >= 0.0
  {
  }

  /** The weighted squared distances to the rough centers. */
  ghost function SquaredSum(src: seq<Point>, bic: seq<Point>, dist: Distance): real
    requires bic != []
  {
    if src == [] then 0.0
    else
      var p := src[|src| - 1];
      var d := LeastDistance(p, bic, dist);
      SquaredSum(src[..|src| - 1], bic, dist) + Times(d, d) * p.weight
  }

  lemma SquaredSumNext(src: seq<Point>, i: nat, bic: seq<Point>, dist: Distance)
    requires i < |src| && bic != []
    ensures var d := LeastDistance(src[i], bic, dist);
            SquaredSum(src[..i + 1], bic, dist) == SquaredSum(src[..i], bic, dist) + Times(d, d) * src[i].weight
  {
    assert src[..i + 1][..i] == src[..i];
  }

  function AtLeast(low: real, x: real): real {
    if x < low then low else x
  }

  /** How likely the k-th point is drawn, before normalising: the more, the further it is from all rough centers. */
  ghost function SampleWeight(src: seq<Point>, bic: seq<Point>, dist: Distance, k: nat): real
    requires bic != [] && k < |src|
  {
    var d := LeastDistance(src[k], bic, dist);
    Probability(src[k].weight, Times(d, d), Total(src), AtLeast(SMALLEST, SquaredSum(src, bic, dist)))
  }

  ghost function SampleSum(src: seq<Point>, bic: seq<Point>, dist: Distance, n: nat): real
    requires bic != [] && n <= |src|
  {
    if n == 0 then 0.0 else SampleSum(src, bic, dist, n - 1) + SampleWeight(src, bic, dist, n - 1)
  }

  /** p is a point of src whose weight, times its share of the sampling weights and the sample count, is the
      weight in src. */
  ghost predicate IsSample(src: seq<Point>, bic: seq<Point>, dist: Distance, count: nat, p: Point)
    requires bic != []
  {
    exists k :: 0 <= k < |src| && SampleAt(src, bic, dist, count, k, p)
  }

  ghost predicate SampleAt(src: seq<Point>, bic: seq<Point>, dist: Distance, count: nat, k: nat, p: Point)
    requires bic != [] && k < |src|
  {
    var w, sum := SampleWeight(src, bic, dist, k), SampleSum(src, bic, dist, |src|);
    && 0 < count && w >= 1.0 && sum > 0.0
    && p.data == src[k].data && Times(p.weight, Times(count as real, w)) == Times(src[k].weight, sum)
  }

  /** First loop: the weight sum, the squared distances and their weighted sum. */
  method Measure(src: seq<Point>, bic: seq<Point>, dist: Distance)
      returns (squares: seq<real>, weightSum: real, squaredSum: real)
    requires NonNegative(src) && bic != []
    ensures weightSum == Total(src) >= 0.0 && squaredSum == SquaredSum(src, bic, dist) && |squares| == |src|
    ensures forall j :: 0 <= j < |src| ==>
                var d := LeastDistance(src[j], bic, dist); squares[j] == Times(d, d)
  {
    squares, weightSum, squaredSum := [], 0.0, 0.0;
    for i := 0 to |src|
      invariant |squares| == i && weightSum == Total(src[..i]) >= 0.0 && squaredSum == SquaredSum(src[..i], bic, dist)
      invariant forall j :: 0 <= j < i ==>
                  var d := LeastDistance(src[j], bic, dist); squares[j] == Times(d, d)
    {
      TotalNext(src, i);
      SquaredSumNext(src, i, bic, dist);
      var _, d := MinDist(src[i], bic, dist);
      SquareNonNegative(d);
      squares := squares + [Times(d, d)];
      squaredSum := squaredSum + Times(d, d) * src[i].weight;
      weightSum := weightSum + src[i].weight;
    }
    assert src[..|src|] == src;
  }

  /** Second loop: the sampling weights and their sum. */
  method Probabilities(src: seq<Point>, bic: seq<Point>, dist: Distance, squares: seq<real>, weightSum: real,
                       squaredSum: real)
      returns (weights: seq<real>, sumw: real)
    requires NonNegative(src) && bic != [] && |squares| == |src|
    requires weightSum == Total(src) >= 0.0 && squaredSum == AtLeast(SMALLEST, SquaredSum(src, bic, dist))
    requires forall j :: 0 <= j < |src| ==>
                var d := LeastDistance(src[j], bic, dist); squares[j] == Times(d, d)
    ensures |weights| == |src| && sumw == SampleSum(src, bic, dist, |src|) >= |src| as real
    ensures forall j :: 0 <= j < |src| ==> weights[j] == SampleWeight(src, bic, dist, j) >= 1.0
  {
    weights, sumw := [], 0.0;
    for i := 0 to |src|
      invariant |weights| == i && sumw == SampleSum(src, bic, dist, i) >= i as real
      invariant forall j :: 0 <= j < i ==> weights[j] == SampleWeight(src, bic, dist, j) >= 1.0
    {
      ProbabilityAtLeastOne(src[i].weight, squares[i], weightSum, squaredSum);
      var p := Probability(src[i].weight, squares[i], weightSum, squaredSum);
      weights, sumw := weights + [p], sumw + p;
    }
  }

  /** bicriteria_to_coreset: `count` sampled points with rescaled weights, the source itself without rough centers. */
  method BicriteriaToCoreset(src: seq<Point>, bic: seq<Point>, count: nat, dist: Distance) returns (dst: seq<Point>)
    requires NonNegative(src) && src != []
    ensures bic == [] ==> dst == src
    ensures bic != [] ==> |dst| == count && forall i :: 0 <= i < |dst| ==> IsSample(src, bic, dist, count, dst[i])
  {
    if bic == [] {
      return src;
    }
    var squares, weightSum, squaredSum := Measure(src, bic, dist);
    var weights, sumw := Probabilities(src, bic, dist, squares, weightSum, AtLeast(SMALLEST, squaredSum));
    dst := [];
    for c := 0 to count
      invariant |dst| == c
      invariant forall i :: 0 <= i < |dst| ==> IsSample(src, bic, dist, count, dst[i])
    {
      var index: nat :| index < |src|;
      var sample := src[index].(weight := Rescaled(src[index].weight, count, weights[index], sumw));
      RescaledShare(src[index].weight, count, weights[index], sumw);
      assert SampleAt(src, bic, dist, count, index, sample);
      dst := dst + [sample];
    }
  }

  /** The smallest positive normal double, to 17 digits. */
  const SMALLEST := 2.2250738585072014e-308

  function Rescaled(weight: real, count: nat, w: real, sumw: real): real
    requires 0 < count && w >= 1.0 && sumw > 0.0
  {
    var prob := w / sumw;
    PositiveQuotient(w, sumw);
    weight * (1.0 / count as real / prob)
  }

  lemma RescaledShare(weight: real, count: nat, w: real, sumw: real)
    requires 0 < count && w >= 1.0 && sumw > 0.0
    ensures Times(Rescaled(weight, count, w, sumw), Times(count as real, w)) == Times(weight, sumw)
  {
    var prob, one := w / sumw, 1.0 / count as real;
    PositiveQuotient(w, sumw);
    var q := one / prob;
    assert prob * sumw == w && one * count as real == 1.0 && q * prob == one;
    assert q * (count as real * w) == (q * prob) * count as real * sumw;
    assert (weight * q) * (count as real * w) == weight * (q * (count as real * w));
  }

  /** The weight of each sample ps[k] of point k, times how likely it is drawn before normalising, added up. */
  ghost function Expected(src: seq<Point>, bic: seq<Point>, dist: Distance, ps: seq<Point>, n: nat): real
    requires bic != [] && n <= |ps| == |src|
  {
    if n == 0 then 0.0
    else Expected(src, bic, dist, ps, n - 1) + Times(ps[n - 1].weight, SampleWeight(src, bic, dist, n - 1))
  }

  lemma ExpectedStep(count: real, before: real, total: real, sum: real, p: real, w: real, weight: real)
    requires Times(before, count) == Times(total, sum) && Times(p, Times(count, w)) == Times(weight, sum)
    ensures Times(before + Times(p, w), count) == Times(total + weight, sum)
  {
  }

  lemma {:induction false} ExpectedTotal(src: seq<Point>, bic: seq<Point>, dist: Distance, count: nat,
                                         ps: seq<Point>, n: nat)
    requires bic != [] && n <= |ps| == |src|
    requires forall k :: 0 <= k < |src| ==> SampleAt(src, bic, dist, count, k, ps[k])
    ensures Times(Expected(src, bic, dist, ps, n), count as real)
         == Times(Total(src[..n]), SampleSum(src, bic, dist, |src|))
  {
    if n > 0 {
      ExpectedTotal(src, bic, dist, count, ps, n - 1);
      TotalNext(src, n - 1);
      assert SampleAt(src, bic, dist, count, n - 1, ps[n - 1]);
      ExpectedStep(count as real, Expected(src, bic, dist, ps, n - 1), Total(src[..n - 1]),
                   SampleSum(src, bic, dist, |src|), ps[n - 1].weight, SampleWeight(src, bic, dist, n - 1),
                   src[n - 1].weight);
    }
  }

  /** The sampling keeps the total weight on average: a point is drawn with its share of the sampling weights, so
      the expected weight of one sample, times the number of samples, is the total weight of the source. */
  lemma SamplingIsUnbiased(src: seq<Point>, bic: seq<Point>, dist: Distance, count: nat, ps: seq<Point>)
    requires bic != [] && |ps| == |src|
    requires forall k :: 0 <= k < |src| ==> SampleAt(src, bic, dist, count, k, ps[k])
    ensures Times(Expected(src, bic, dist, ps, |ps|), count as real)
         == Times(Total(src), SampleSum(src, bic, dist, |src|))
  {
    ExpectedTotal(src, bic, dist, count, ps, |ps|);
    assert src[..|ps|] == src;
  }

  lemma PositiveQuotient(a: real, b: real)
    requires a > 0.0 && b > 0.0
    ensures a / b > 0.0
  {
  }

  /** The weight of the points whose first closest center is the m-th. */
  ghost function Share(ps: seq<Point>, centers: seq<Point>, dist: Distance, m: nat): real
    requires centers != []
  {
    if ps == [] then 0.0
    else
      var p := ps[|ps| - 1];
      Share(ps[..|ps| - 1], centers, dist, m) + if Closest(p, centers, dist) == m then p.weight else 0.0
  }

  function Signed(minus: bool, x: real): real {
    if minus then -x else x
  }

  /** The m-th center with its share of the points added to its weight, or taken from it. */
  ghost function Credited(ps: seq<Point>, centers: seq<Point>, minus: bool, dist: Distance, m: nat): Point
    requires m < |centers|
  {
    Point(centers[m].data, centers[m].weight + Signed(minus, Share(ps, centers, dist, m)))
  }

  lemma CreditedNext(ps: seq<Point>, i: nat, centers: seq<Point>, minus: bool, dist: Distance, m: nat)
    requires i < |ps| && m < |centers|
    ensures Credited(ps[..i + 1], centers, minus, dist, m)
         == var before := Credited(ps[..i], centers, minus, dist, m);
            if Closest(ps[i], centers, dist) == m then before.(weight := before.weight + Signed(minus, ps[i].weight))
            else before
  {
    assert ps[..i + 1][..i] == ps[..i];
  }

  /** Moves every point's weight, with a sign, to the closest rough center. */
  method Attribute(ps: seq<Point>, centers: seq<Point>, minus: bool, dist: Distance) returns (out: seq<Point>)
    requires centers != []
    ensures |out| == |centers| && Total(out) == Total(centers) + Signed(minus, Total(ps))
    ensures forall m :: 0 <= m < |out| ==> out[m] == Credited(ps, centers, minus, dist, m)
  {
    out := centers;
    for i := 0 to |ps|
      invariant |out| == |centers| && Total(out) == Total(centers) + Signed(minus, Total(ps[..i]))
      invariant forall m :: 0 <= m < |out| ==> out[m] == Credited(ps[..i], centers, minus, dist, m)
    {
      TotalNext(ps, i);
      ClosestByData(ps[i], out, centers, dist, |out|);
      forall j | 0 <= j < |out| { CreditedNext(ps, i, centers, minus, dist, j); }
      var m, _ := MinDist(ps[i], out, dist);
      var moved := out[m].(weight := out[m].weight + Signed(minus, ps[i].weight));
      TotalUpdate(out, m, moved);
      out := out[m := moved];
    }
    assert ps[..|ps|] == ps;
  }

  function Zeroed(ps: seq<Point>): seq<Point> {
    seq(|ps|, i requires 0 <= i < |ps| => ps[i].(weight := 0.0))
  }

  lemma {:induction false} ZeroedTotal(ps: seq<Point>)
    ensures Total(Zeroed(ps)) == 0.0
  {
    if ps != [] {
      var n := |ps| - 1;
      assert Zeroed(ps)[..n] == Zeroed(ps[..n]);
      ZeroedTotal(ps[..n]);
    }
  }

  /** The samples, then the rough centers with the weight of the source points closest to each, less what the
      samples closest to it already account for. */
  ghost function Unclamped(src: seq<Point>, bic: seq<Point>, dst: seq<Point>, dist: Distance): seq<Point> {
    dst + Balances(src, bic, dst, dist)
  }

  ghost function Balances(src: seq<Point>, bic: seq<Point>, dst: seq<Point>, dist: Distance): seq<Point> {
    seq(|bic|, m requires 0 <= m < |bic| => Balanced(src, bic, dst, dist, m))
  }

  ghost function Balanced(src: seq<Point>, bic: seq<Point>, dst: seq<Point>, dist: Distance, m: nat): Point
    requires m < |bic|
  {
    var centers := Zeroed(bic);
    Point(bic[m].data, Share(src, centers, dist, m) - Share(dst, centers, dist, m))
  }

  /** bicriteria_as_coreset: appends as many rough centers as are missing. Before clamping the total weight is
      that of the source. */
  method BicriteriaAsCoreset(src: seq<Point>, bic: seq<Point>, dstsize: nat, dst: seq<Point>, dist: Distance)
      returns (out: seq<Point>)
    requires |dst| < dstsize <= |dst| + |bic|
    ensures |out| == dstsize && out == Clamp(Unclamped(src, bic[..dstsize - |dst|], dst, dist))
    ensures Total(Unclamped(src, bic[..dstsize - |dst|], dst, dist)) == Total(src)
  {
    ghost var kept := bic[..dstsize - |dst|];
    var centers := Zeroed(bic[..dstsize - |dst|]);
    ZeroedTotal(kept);
    var less := Attribute(dst, centers, true, dist);
    var more := Attribute(src, less, false, dist);
    forall m | 0 <= m < |centers| ensures Share(src, less, dist, m) == Share(src, centers, dist, m) {
      ShareByData(src, less, centers, dist, m);
    }
    TotalAppend(dst, more);
    forall m | 0 <= m < |kept| ensures more[m] == Balanced(src, kept, dst, dist, m) {
      assert less[m] == Credited(dst, centers, true, dist, m);
    }
    assert more == Balances(src, kept, dst, dist);
    out := Clamp(dst + more);
  }

  lemma {:induction false} ShareByData(ps: seq<Point>, a: seq<Point>, b: seq<Point>, dist: Distance, m: nat)
    requires 0 < |a| == |b| && forall i :: 0 <= i < |a| ==> a[i].data == b[i].data
    ensures Share(ps, a, dist, m) == Share(ps, b, dist, m)
  {
    if ps != [] {
      ShareByData(ps[..|ps| - 1], a, b, dist, m);
      ClosestByData(ps[|ps| - 1], a, b, dist, |a|);
    }
  }

  lemma UnclampedSampled(src: seq<Point>, bic: seq<Point>, kept: seq<Point>, count: nat, samples: seq<Point>,
                         dist: Distance, i: nat)
    requires bic != [] && i < |samples| + |kept|
    requires forall p :: p in kept ==> p in src
    requires forall j :: 0 <= j < |samples| ==> IsSample(src, bic, dist, count, samples[j])
    ensures SampledFrom(src, Unclamped(src, kept, samples, dist)[i])
  {
    if i < |samples| {
      assert IsSample(src, bic, dist, count, samples[i]);
    } else {
      assert kept[i - |samples|] in src;
    }
  }

  /** How a coreset came about: the passes for the rough centers, and the samples. */
  datatype Coreset = Coreset(passes: seq<Pass>, samples: seq<Point>)

  /** As many samples as there is room beside the rough centers. */
  ghost predicate Fills(src: seq<Point>, bic: seq<Point>, dstsize: nat, dist: Distance, samples: seq<Point>)
    requires bic != []
  {
    && |samples| == (if |bic| < dstsize then dstsize - |bic| else 0)
    && forall i :: 0 <= i < |samples| ==> IsSample(src, bic, dist, |samples|, samples[i])
  }

  /** A larger source goes through the passes; if they leave room, that many points are sampled, and rough centers
      with the balances of weight fill the rest. */
  ghost predicate Makes(src: seq<Point>, bsize: nat, dstsize: nat, r: real, dist: Distance, how: Coreset,
                        unclamped: seq<Point>)
  {
    var bic := CentersAfter(how.passes, |how.passes|);
    && ArePasses(src, bsize, dstsize, r, dist, how.passes)
    && (|PoolAfter(src, how.passes, |how.passes|)| <= 1 || |bic| >= dstsize)
    && bic != [] && Fills(src, bic, dstsize, dist, how.samples)
    && unclamped == Unclamped(src, bic[..dstsize - |how.samples|], how.samples, dist)
  }

  method Fill(src: seq<Point>, bic: seq<Point>, dstsize: nat, dist: Distance) returns (samples: seq<Point>)
    requires NonNegative(src) && src != [] && bic != []
    ensures Fills(src, bic, dstsize, dist, samples)
  {
    samples := [];
    if |bic| < dstsize {
      samples := BicriteriaToCoreset(src, bic, dstsize - |bic|, dist);
    }
  }

  lemma MadeFromSource(src: seq<Point>, bsize: nat, dstsize: nat, r: real, dist: Distance, how: Coreset,
                       unclamped: seq<Point>)
    requires Makes(src, bsize, dstsize, r, dist, how, unclamped)
    ensures AllSampled(src, unclamped)
  {
    var bic := CentersAfter(how.passes, |how.passes|);
    PassesFrom(src, bsize, dstsize, r, dist, how.passes, |how.passes|);
    var kept := bic[..dstsize - |how.samples|];
    forall i | 0 <= i < |unclamped| ensures SampledFrom(src, unclamped[i]) {
      UnclampedSampled(src, bic, kept, |how.samples|, how.samples, dist, i);
    }
  }

  lemma ClampedFromSource(src: seq<Point>, unclamped: seq<Point>, dst: seq<Point>)
    requires AllSampled(src, unclamped) && ClampedTo(unclamped, dst)
    ensures AllSampled(src, dst)
  {
    forall i | 0 <= i < |dst| ensures SampledFrom(src, dst[i]) {
      assert SampledFrom(src, unclamped[i]);
    }
  }

  /** compress with an empty destination: small inputs are copied; otherwise exactly dstsize points come
      out, their total weight is the source's before negative weights are clamped, and never less after. */
  method Compress(src: seq<Point>, bsize: nat, dstsize: nat, exp: real, dist: Distance)
      returns (dst: seq<Point>, ghost unclamped: seq<Point>, ghost how: Coreset)
    requires 1 <= bsize && 1 <= dstsize && exp > 0.0 && NonNegative(src)
    ensures dstsize >= |src| ==> dst == src
    ensures dstsize < |src| ==> |dst| == dstsize
    ensures |dst| <= dstsize && ClampedTo(unclamped, dst)
    ensures Total(unclamped) == Total(src) && Total(dst) >= Total(src)
    ensures dstsize < |src| ==> Makes(src, bsize, dstsize, Fraction(exp), dist, how, unclamped)
    ensures AllSampled(src, dst)
  {
    ClampNeverLess(src);
    if dstsize >= |src| {
      return src, src, Coreset([], []);
    }
    ghost var passes;
    var bic;
    bic, passes := GetBicriteria(src, bsize, dstsize, exp, dist);
    dst := Fill(src, bic, dstsize, dist);
    ghost var samples := dst;
    ghost var kept := bic[..dstsize - |samples|];
    unclamped, how := Unclamped(src, kept, samples, dist), Coreset(passes, samples);
    dst := BicriteriaAsCoreset(src, bic, dstsize, dst, dist);
    MadeFromSource(src, bsize, dstsize, Fraction(exp), dist, how, unclamped);
    ClampNeverLess(unclamped);
    ClampedFromSource(src, unclamped, dst);
  }
}
