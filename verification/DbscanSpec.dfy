/** What density clustering must compute: core points, chains of core points, and the work state of
    one cluster expansion. The code is in Dbscan. */
module DbscanSpec {

  datatype State = Unclassified | Classified | Noise

  /** n points under a distance; two points are near when they are closer than eps. */
  datatype Problem = Problem(n: nat, dist: (nat, nat) -> real, eps: real, minCore: nat) {
    predicate Near(u: nat, v: nat) { dist(u, v) < eps }

    ghost predicate Symmetric() {
      forall u: nat, v: nat :: u < n && v < n ==> dist(u, v) == dist(v, u)
    }
  }

  /** The points near idx, in index order, among the first k. */
  function RegionUpTo(p: Problem, idx: nat, k: nat): seq<nat> {
    if k == 0 then []
    else RegionUpTo(p, idx, k - 1) + (if p.Near(k - 1, idx) then [k - 1] else [])
  }

  function Region(p: Problem, idx: nat): seq<nat> {
    RegionUpTo(p, idx, p.n)
  }

  predicate Core(p: Problem, u: nat) {
    u < p.n && |Region(p, u)| >= p.minCore
  }

  lemma {:induction false} InRegion(p: Problem, idx: nat, k: nat, v: nat)
    ensures v in RegionUpTo(p, idx, k) <==> v < k && p.Near(v, idx)
  {
    if k > 0 {
      InRegion(p, idx, k - 1, v);
    }
  }

  // ----- chains of core points

  ghost predicate Chain(p: Problem, path: seq<nat>) {
    && path != []
    && (forall k :: 0 <= k < |path| ==> Core(p, path[k]))
    && (forall k :: 0 <= k < |path| - 1 ==> p.Near(path[k + 1], path[k]))
  }

  ghost predicate Links(p: Problem, path: seq<nat>, u: nat, v: nat) {
    Chain(p, path) && path[0] == u && path[|path| - 1] == v
  }

  /** A chain of core points leads from u to v. */
  ghost predicate Linked(p: Problem, u: nat, v: nat) {
    exists path :: Links(p, path, u, v)
  }

  lemma LinkedSelf(p: Problem, u: nat)
    requires Core(p, u)
    ensures Linked(p, u, u)
  {
    assert Links(p, [u], u, u);
  }

  lemma LinkedStep(p: Problem, u: nat, w: nat, v: nat)
    requires Linked(p, u, w) && Core(p, v) && p.Near(v, w)
    ensures Linked(p, u, v)
  {
    var path :| Links(p, path, u, w);
    assert Links(p, path + [v], u, v);
  }

  lemma LinkedTrans(p: Problem, u: nat, v: nat, w: nat)
    requires Linked(p, u, v) && Linked(p, v, w)
    ensures Linked(p, u, w)
  {
    var a :| Links(p, a, u, v);
    var b :| Links(p, b, v, w);
    var path := a + b[1..];
    forall k | 0 <= k < |path| - 1 ensures p.Near(path[k + 1], path[k]) {
      if k >= |a| - 1 {
        assert path[k + 1] == b[k + 2 - |a|] && path[k] == b[k + 1 - |a|];
      }
    }
    assert Links(p, path, u, w);
  }

  lemma {:induction false} ChainBack(p: Problem, path: seq<nat>)
    requires p.Symmetric() && Chain(p, path)
    ensures Linked(p, path[|path| - 1], path[0])
    decreases |path|
  {
    var u := path[0];
    if |path| == 1 {
      LinkedSelf(p, u);
    } else {
      assert Chain(p, path[1..]);
      ChainBack(p, path[1..]);
      LinkedStep(p, path[|path| - 1], path[1], u);
    }
  }

  lemma LinkedSymmetric(p: Problem, u: nat, v: nat)
    requires p.Symmetric() && Linked(p, u, v)
    ensures Linked(p, v, u)
  {
    var path :| Links(p, path, u, v);
    ChainBack(p, path);
  }

  // ----- the work state of one expansion

  /** What expanding from core point idx may collect: idx itself and points near a linked core point. */
  ghost predicate Gathered(p: Problem, idx: nat, u: nat) {
    u < p.n && (u == idx || exists w :: Linked(p, idx, w) && p.Near(u, w))
  }

  lemma GatheredCoreIsLinked(p: Problem, idx: nat, u: nat)
    requires Core(p, idx) && Core(p, u) && Gathered(p, idx, u)
    ensures Linked(p, idx, u)
  {
    if u == idx {
      LinkedSelf(p, u);
    } else {
      var w :| Linked(p, idx, w) && p.Near(u, w);
      LinkedStep(p, idx, w, u);
    }
  }

  ghost function RegionSet(p: Problem, u: nat): set<nat> {
    set v | v in Region(p, u)
  }

  ghost predicate NoDuplicates(xs: seq<nat>) {
    forall i, j :: 0 <= i < j < |xs| ==> xs[i] != xs[j]
  }

  /** Points near a classified core point are classified, except those still pending. */
  ghost predicate Closed(p: Problem, s: seq<State>, pending: set<nat>)
    requires |s| == p.n
  {
    forall u: nat, v: nat :: u < p.n && v < p.n && s[u].Classified? && Core(p, u) && p.Near(v, u) ==>
      s[v].Classified? || v in pending
  }

  ghost predicate NoiseIsNotCore(p: Problem, s: seq<State>)
    requires |s| == p.n
  {
    forall u :: 0 <= u < p.n && s[u].Noise? ==> !Core(p, u)
  }

  /** From states s0, expanding idx has reached states s and collected cluster. */
  ghost predicate Working(p: Problem, s0: seq<State>, s: seq<State>, idx: nat, cluster: seq<nat>, pending: set<nat>) {
    && |s0| == |s| == p.n && Core(p, idx)
    && Closed(p, s, pending) && NoiseIsNotCore(p, s)
    && (forall u :: 0 <= u < p.n ==> s[u] == s0[u] || s[u].Classified?)
    && NoDuplicates(cluster) && idx in cluster
    && (forall u: nat :: u in cluster <==> u < p.n && s[u].Classified? && !s0[u].Classified?)
    && (forall u :: u in cluster ==> Gathered(p, idx, u))
  }

  lemma ClassifyClosed(p: Problem, s: seq<State>, pending: set<nat>, x: nat)
    requires |s| == p.n && x < p.n && Closed(p, s, pending)
    ensures Closed(p, s[x := Classified], pending - {x} + (if Core(p, x) then RegionSet(p, x) else {}))
  {
    forall v { InRegion(p, x, p.n, v); }
  }

  /** Classifying a gathered point adds its own region, if it is core, to the pending work. */
  lemma Classify(p: Problem, s0: seq<State>, s: seq<State>, idx: nat, cluster: seq<nat>, pending: set<nat>, x: nat)
    requires Working(p, s0, s, idx, cluster, pending)
    requires Gathered(p, idx, x) && !s[x].Classified?
    ensures Working(p, s0, s[x := Classified], idx, cluster + [x],
                    pending - {x} + (if Core(p, x) then RegionSet(p, x) else {}))
  {
    ClassifyClosed(p, s, pending, x);
    assert x !in cluster;
    forall u ensures u in cluster + [x] <==> u in cluster || u == x {}
  }

  lemma Start(p: Problem, s0: seq<State>, idx: nat)
    requires |s0| == p.n && Core(p, idx) && !s0[idx].Classified?
    requires Closed(p, s0, {}) && NoiseIsNotCore(p, s0)
    ensures Working(p, s0, s0[idx := Classified], idx, [idx], RegionSet(p, idx))
  {
    ClassifyClosed(p, s0, {}, idx);
    assert {} - {idx} + RegionSet(p, idx) == RegionSet(p, idx);
  }

  lemma RegionGathered(p: Problem, idx: nat, x: nat, v: nat)
    requires Core(p, idx) && Core(p, x) && Gathered(p, idx, x) && v in Region(p, x)
    ensures Gathered(p, idx, v)
  {
    InRegion(p, x, p.n, v);
    GatheredCoreIsLinked(p, idx, x);
  }

  // ----- consequences of a finished expansion

  lemma {:induction false} ClosedAlong(p: Problem, s: seq<State>, path: seq<nat>)
    requires |s| == p.n && Closed(p, s, {}) && Chain(p, path) && s[path[0]].Classified?
    ensures s[path[|path| - 1]].Classified?
    decreases |path|
  {
    if |path| > 1 {
      assert Core(p, path[0]) && Core(p, path[1]) && p.Near(path[1], path[0]);
      assert Chain(p, path[1..]);
      ClosedAlong(p, s, path[1..]);
    }
  }

  lemma ClosedLinked(p: Problem, s: seq<State>, u: nat, v: nat)
    requires |s| == p.n && Closed(p, s, {}) && Linked(p, u, v)
    requires u < p.n && s[u].Classified?
    ensures v < p.n && s[v].Classified?
  {
    var path :| Links(p, path, u, v);
    ClosedAlong(p, s, path);
  }

  /** A finished expansion holds exactly the core points linked to its start. */
  lemma FinishedCluster(p: Problem, s0: seq<State>, s: seq<State>, idx: nat, cluster: seq<nat>, u: nat)
    requires p.Symmetric() && Working(p, s0, s, idx, cluster, {})
    requires Closed(p, s0, {}) && Core(p, u)
    ensures u in cluster <==> Linked(p, idx, u)
  {
    if u in cluster {
      GatheredCoreIsLinked(p, idx, u);
    }
    if Linked(p, idx, u) {
      ClosedLinked(p, s, idx, u);
      if s0[u].Classified? {
        LinkedSymmetric(p, idx, u);
        ClosedLinked(p, s0, u, idx);
      }
    }
  }
}
