/** Density clustering over point indices (jubatus/core/clustering/dbscan.cpp). */
module Dbscan {
  import opened DbscanSpec

  ghost function Open(s: seq<State>): set<nat> {
    set u: nat | u < |s| && !s[u].Classified?
  }

  lemma ClassifyShrinks(s: seq<State>, x: nat)
    requires x < |s| && !s[x].Classified?
    ensures Open(s[x := Classified]) < Open(s)
  {
    assert x in Open(s) && x !in Open(s[x := Classified]);
  }

  /** One expansion: no index twice, a core start, and only classified points it may gather. */
  ghost predicate Expansion(p: Problem, s: seq<State>, xs: seq<nat>)
    requires |s| == p.n
  {
    && xs != [] && NoDuplicates(xs) && Core(p, xs[0])
    && (forall u :: u in xs ==> u < p.n && s[u].Classified? && Gathered(p, xs[0], u))
  }

  ghost predicate Disjoint(expansions: seq<seq<nat>>) {
    forall d, e, u :: 0 <= d < e < |expansions| && u in expansions[d] ==> u !in expansions[e]
  }

  ghost predicate Covered(expansions: seq<seq<nat>>, u: nat) {
    exists e :: 0 <= e < |expansions| && u in expansions[e]
  }

  /** The expansions so far partition the classified points. */
  ghost predicate Partition(p: Problem, s: seq<State>, expansions: seq<seq<nat>>)
    requires |s| == p.n
  {
    && (forall e :: 0 <= e < |expansions| ==> Expansion(p, s, expansions[e]))
    && Disjoint(expansions)
    && (forall u: nat :: u < p.n && s[u].Classified? ==> Covered(expansions, u))
  }

  /** Each expansion holds exactly the core points linked to its start. */
  ghost predicate HoldsLinked(p: Problem, expansions: seq<seq<nat>>) {
    forall e, u :: 0 <= e < |expansions| && expansions[e] != [] && Core(p, u) ==>
      (u in expansions[e] <==> Linked(p, expansions[e][0], u))
  }

  lemma CoveredGrows(expansions: seq<seq<nat>>, cluster: seq<nat>, u: nat)
    requires Covered(expansions, u) || u in cluster
    ensures Covered(expansions + [cluster], u)
  {
    var grown := expansions + [cluster];
    if u in cluster {
      assert grown[|expansions|] == cluster;
    } else {
      var e :| 0 <= e < |expansions| && u in expansions[e];
      assert grown[e] == expansions[e];
    }
  }

  lemma DisjointGrows(p: Problem, s0: seq<State>, expansions: seq<seq<nat>>, cluster: seq<nat>)
    requires |s0| == p.n && Partition(p, s0, expansions)
    requires forall u: nat :: u in cluster ==> u < p.n && !s0[u].Classified?
    ensures Disjoint(expansions + [cluster])
  {
    forall e, u | 0 <= e < |expansions| && u in expansions[e] ensures u !in cluster {
      assert Expansion(p, s0, expansions[e]);
    }
  }

  lemma PartitionGrows(p: Problem, s0: seq<State>, s: seq<State>, expansions: seq<seq<nat>>, cluster: seq<nat>)
    requires |s0| == p.n && Partition(p, s0, expansions)
    requires cluster != [] && Working(p, s0, s, cluster[0], cluster, {})
    ensures Partition(p, s, expansions + [cluster])
  {
    DisjointGrows(p, s0, expansions, cluster);
    forall e | 0 <= e < |expansions| ensures Expansion(p, s, expansions[e]) {
      assert Expansion(p, s0, expansions[e]);
    }
    assert Expansion(p, s, cluster);
    forall u: nat | u < p.n && s[u].Classified? ensures Covered(expansions + [cluster], u) {
      CoveredGrows(expansions, cluster, u);
    }
  }

  lemma PartitionKept(p: Problem, s: seq<State>, expansions: seq<seq<nat>>, idx: nat)
    requires |s| == p.n && idx < p.n && s[idx].Unclassified? && Partition(p, s, expansions)
    ensures Partition(p, s[idx := Noise], expansions)
  {
    forall e | 0 <= e < |expansions| ensures Expansion(p, s[idx := Noise], expansions[e]) {
      assert Expansion(p, s, expansions[e]);
    }
  }

  lemma LinkedGrows(p: Problem, s0: seq<State>, s: seq<State>, expansions: seq<seq<nat>>, cluster: seq<nat>)
    requires p.Symmetric() && |s0| == p.n && HoldsLinked(p, expansions)
    requires cluster != [] && Working(p, s0, s, cluster[0], cluster, {}) && Closed(p, s0, {})
    ensures HoldsLinked(p, expansions + [cluster])
  {
    forall u: nat | Core(p, u) { FinishedCluster(p, s0, s, cluster[0], cluster, u); }
  }

  function Large(p: Problem, expansions: seq<seq<nat>>): seq<seq<nat>> {
    if expansions == [] then []
    else
      var n := |expansions| - 1;
      Large(p, expansions[..n]) + (if |expansions[n]| >= p.minCore then [expansions[n]] else [])
  }

  lemma LargeAppend(p: Problem, expansions: seq<seq<nat>>, cluster: seq<nat>)
    ensures Large(p, expansions + [cluster])
         == Large(p, expansions) + (if |cluster| >= p.minCore then [cluster] else [])
  {
    assert (expansions + [cluster])[..|expansions|] == expansions;
  }

  /** Declaratively: a point within eps of some core point, or core itself. */
  ghost predicate Dense(p: Problem, u: nat) {
    Core(p, u) || exists w :: Core(p, w) && p.Near(u, w)
  }

  lemma FinishedStates(p: Problem, s: seq<State>, expansions: seq<seq<nat>>, u: nat)
    requires |s| == p.n && Closed(p, s, {}) && NoiseIsNotCore(p, s) && Partition(p, s, expansions)
    requires (forall v :: 0 <= v < p.n ==> s[v] != Unclassified) && u < p.n
    ensures s[u] == if Dense(p, u) then Classified else Noise
  {
    if s[u].Classified? {
      assert Covered(expansions, u);
      var e :| 0 <= e < |expansions| && u in expansions[e];
      assert Expansion(p, s, expansions[e]);
      if u != expansions[e][0] {
        var w :| Linked(p, expansions[e][0], w) && p.Near(u, w);
        var path :| Links(p, path, expansions[e][0], w);
        assert Core(p, path[|path| - 1]);
      }
    }
  }

  // ----- which expansion a point belongs to

  ghost predicate Started(expansions: seq<seq<nat>>) {
    forall e :: 0 <= e < |expansions| ==> expansions[e] != []
  }

  /** Gathered from the start of the e-th expansion and from no earlier start. */
  ghost predicate FirstGathered(p: Problem, expansions: seq<seq<nat>>, e: nat, u: nat)
    requires Started(expansions) && e < |expansions|
  {
    && Gathered(p, expansions[e][0], u)
    && forall d :: 0 <= d < e ==> !Gathered(p, expansions[d][0], u)
  }

  /** The starts ascend below i, each is the least core point of its expansion, and an expansion holds the
      points gathered from its start and from no earlier one. */
  ghost predicate Ordered(p: Problem, expansions: seq<seq<nat>>, i: nat) {
    && Started(expansions)
    && (forall e :: 0 <= e < |expansions| ==> expansions[e][0] < i)
    && (forall d, e :: 0 <= d < e < |expansions| ==> expansions[d][0] < expansions[e][0])
    && (forall e, u :: 0 <= e < |expansions| && u in expansions[e] && Core(p, u) ==> expansions[e][0] <= u)
    && (forall e, u: nat :: 0 <= e < |expansions| ==> (u in expansions[e] <==> FirstGathered(p, expansions, e, u)))
  }

  lemma GatheredClassified(p: Problem, s: seq<State>, idx: nat, u: nat)
    requires |s| == p.n && Closed(p, s, {}) && Core(p, idx) && s[idx].Classified? && Gathered(p, idx, u)
    ensures s[u].Classified?
  {
    if u != idx {
      var w :| Linked(p, idx, w) && p.Near(u, w);
      ClosedLinked(p, s, idx, w);
      LinkedEndIsCore(p, idx, w);
    }
  }

  lemma LinkedEndIsCore(p: Problem, u: nat, w: nat)
    requires Linked(p, u, w)
    ensures Core(p, w)
  {
    var path :| Links(p, path, u, w);
  }

  /** From states s0 with these expansions, expanding i has collected the cluster. */
  ghost predicate Expanded(p: Problem, s0: seq<State>, s: seq<State>, expansions: seq<seq<nat>>, i: nat,
      cluster: seq<nat>) {
    && |s0| == p.n && Closed(p, s0, {}) && NoiseIsNotCore(p, s0) && Partition(p, s0, expansions)
    && Ordered(p, expansions, i) && i < p.n && (forall u :: 0 <= u < i ==> s0[u] != Unclassified)
    && cluster != [] && cluster[0] == i && Working(p, s0, s, i, cluster, {})
  }

  lemma NewMembers(p: Problem, s0: seq<State>, s: seq<State>, expansions: seq<seq<nat>>, i: nat, cluster: seq<nat>,
      u: nat)
    requires Expanded(p, s0, s, expansions, i, cluster)
    ensures u in cluster <==> Gathered(p, i, u) && forall d :: 0 <= d < |expansions| ==>
              !Gathered(p, expansions[d][0], u)
  {
    if u in cluster {
      forall d | 0 <= d < |expansions| ensures !Gathered(p, expansions[d][0], u) {
        assert Expansion(p, s0, expansions[d]);
        if Gathered(p, expansions[d][0], u) {
          GatheredClassified(p, s0, expansions[d][0], u);
        }
      }
    } else if Gathered(p, i, u) {
      assert i in cluster;
      GatheredClassified(p, s, i, u);
      assert Covered(expansions, u);
      var e :| 0 <= e < |expansions| && u in expansions[e];
      assert Expansion(p, s0, expansions[e]);
    }
  }

  lemma OrderedGrows(p: Problem, s0: seq<State>, s: seq<State>, expansions: seq<seq<nat>>, i: nat, cluster: seq<nat>)
    requires Expanded(p, s0, s, expansions, i, cluster)
    ensures Ordered(p, expansions + [cluster], i + 1)
  {
    var all, n := expansions + [cluster], |expansions|;
    forall e, u: nat | 0 <= e <= n ensures u in all[e] <==> FirstGathered(p, all, e, u) {
      assert forall d :: 0 <= d < e ==> all[d] == expansions[d];
      if e < n {
        assert u in expansions[e] <==> FirstGathered(p, expansions, e, u);
      } else {
        NewMembers(p, s0, s, expansions, i, cluster, u);
      }
    }
  }

  /** The clusters after one more expansion: too small ones are not reported. */
  function Kept(p: Problem, clusters: seq<seq<nat>>, cluster: seq<nat>): seq<seq<nat>> {
    if |cluster| >= p.minCore then clusters + [cluster] else clusters
  }

  lemma LargeGrows(p: Problem, expansions: seq<seq<nat>>, cluster: seq<nat>)
    ensures Large(p, expansions + [cluster]) == Kept(p, Large(p, expansions), cluster)
  {
    LargeAppend(p, expansions, cluster);
    assert Large(p, expansions) + [] == Large(p, expansions);
  }

  /** What the states say when the first i points have been looked at. */
  ghost predicate Looked(p: Problem, s: seq<State>, i: nat) {
    && |s| == p.n && Closed(p, s, {}) && NoiseIsNotCore(p, s)
    && (forall u :: 0 <= u < i && u < p.n ==> s[u] != Unclassified)
  }

  lemma LookedAtCore(p: Problem, s0: seq<State>, s: seq<State>, i: nat, cluster: seq<nat>)
    requires Looked(p, s0, i) && i < p.n && cluster != [] && cluster[0] == i && Working(p, s0, s, i, cluster, {})
    ensures Looked(p, s, i + 1)
  {
  }

  lemma LookedAtNoise(p: Problem, s: seq<State>, i: nat)
    requires Looked(p, s, i) && i < p.n && s[i].Unclassified? && !Core(p, i)
    ensures Looked(p, s[i := Noise], i + 1)
  {
  }

  /** The loop over all points, having looked at the first i. */
  ghost predicate Progress(p: Problem, s: seq<State>, expansions: seq<seq<nat>>, clusters: seq<seq<nat>>, i: nat) {
    && Looked(p, s, i) && Partition(p, s, expansions) && clusters == Large(p, expansions)
    && (p.Symmetric() ==> HoldsLinked(p, expansions)) && Ordered(p, expansions, i)
  }

  lemma ProgressNoise(p: Problem, s: seq<State>, expansions: seq<seq<nat>>, clusters: seq<seq<nat>>, i: nat)
    requires Progress(p, s, expansions, clusters, i) && i < p.n && s[i].Unclassified? && !Core(p, i)
    ensures Progress(p, s[i := Noise], expansions, clusters, i + 1)
  {
    LookedAtNoise(p, s, i);
    PartitionKept(p, s, expansions, i);
  }

  lemma ProgressCore(p: Problem, s0: seq<State>, s: seq<State>, expansions: seq<seq<nat>>, clusters: seq<seq<nat>>,
                     i: nat, cluster: seq<nat>)
    requires Progress(p, s0, expansions, clusters, i) && i < p.n
    requires cluster != [] && cluster[0] == i && Working(p, s0, s, i, cluster, {})
    ensures Progress(p, s, expansions + [cluster], Kept(p, clusters, cluster), i + 1)
  {
    LookedAtCore(p, s0, s, i, cluster);
    PartitionGrows(p, s0, s, expansions, cluster);
    OrderedGrows(p, s0, s, expansions, i, cluster);
    LargeGrows(p, expansions, cluster);
    if p.Symmetric() {
      LinkedGrows(p, s0, s, expansions, cluster);
    }
  }

  /** The loop body, having expanded point i. */
  lemma ProgressExpanded(p: Problem, s0: seq<State>, s: seq<State>, expansions: seq<seq<nat>>,
                         clusters: seq<seq<nat>>, i: nat, cluster: seq<nat>)
    requires Progress(p, s0, expansions, clusters, i) && i < p.n && s0[i].Unclassified?
    requires !Core(p, i) ==> cluster == [] && s == s0[i := Noise]
    requires Core(p, i) ==> cluster != [] && cluster[0] == i && Working(p, s0, s, i, cluster, {})
    ensures Progress(p, s, if Core(p, i) then expansions + [cluster] else expansions, Kept(p, clusters, cluster), i + 1)
  {
    if Core(p, i) {
      ProgressCore(p, s0, s, expansions, clusters, i, cluster);
    } else {
      ProgressNoise(p, s0, expansions, clusters, i);
    }
  }

  lemma ProgressSkip(p: Problem, s: seq<State>, expansions: seq<seq<nat>>, clusters: seq<seq<nat>>, i: nat)
    requires Progress(p, s, expansions, clusters, i) && i < p.n && s[i] != Unclassified
    ensures Progress(p, s, expansions, clusters, i + 1)
  {
  }

  lemma ProgressDone(p: Problem, s: seq<State>, expansions: seq<seq<nat>>, clusters: seq<seq<nat>>)
    requires Progress(p, s, expansions, clusters, p.n)
    ensures forall u :: 0 <= u < p.n ==> s[u] == if Dense(p, u) then Classified else Noise
    ensures Partition(p, s, expansions) && clusters == Large(p, expansions) && Ordered(p, expansions, p.n)
    ensures p.Symmetric() ==> HoldsLinked(p, expansions)
  {
    forall u | 0 <= u < p.n { FinishedStates(p, s, expansions, u); }
  }

  /** All pending points will be looked at: in the rest of this pass or in the next one. */
  ghost predicate Awaited(pending: set<nat>, rest: seq<nat>, added: seq<nat>) {
    forall v :: v in pending ==> v in rest || v in added
  }

  lemma AwaitedNext(pending: set<nat>, core: seq<nat>, k: nat, added: seq<nat>)
    requires k < |core| && Awaited(pending, core[k..], added)
    ensures Awaited(pending - {core[k]}, core[k + 1..], added)
  {
    assert core[k..] == [core[k]] + core[k + 1..];
  }

  /** Looking at a point adds its region to what is pending, and queues that region if the point is core. */
  lemma AwaitedGrows(p: Problem, it: nat, left: set<nat>, pending: set<nat>, rest: seq<nat>, added: seq<nat>,
                     added': seq<nat>)
    requires it < p.n && Awaited(left, rest, added) && added <= added'
    requires forall v :: v in pending ==> v in left + (if Core(p, it) then RegionSet(p, it) else {})
    requires forall v :: v in pending ==> v in added' || !Core(p, it) || v !in Region(p, it)
    ensures Awaited(pending, rest, added')
  {
    forall v | v in added ensures v in added' {
      var i :| 0 <= i < |added| && added[i] == v;
      assert added'[i] == v;
    }
  }

  class Dbscan {
    const p: Problem
    var pointStates: array<State>
    var clusters: seq<seq<nat>>
    ghost var expansions: seq<seq<nat>>  // every expansion, also those too short to be reported

    constructor (p: Problem)
      ensures this.p == p && fresh(pointStates)
    {
      this.p := p;
      pointStates := new State[0];
      clusters, expansions := [], [];
    }

    method RegionQuery(idx: nat) returns (region: seq<nat>)
      ensures region == Region(p, idx)
    {
      region := [];
      for k := 0 to p.n
        invariant region == RegionUpTo(p, idx, k)
      {
        if p.Near(k, idx) {
          region := region + [k];
        }
      }
    }

    /** Marks a point classified and appends it to the cluster. */
    method Collect(ghost s0: seq<State>, idx: nat, x: nat, cluster: seq<nat>, ghost pending: set<nat>)
        returns (cluster': seq<nat>, ghost pending': set<nat>)
      requires pointStates.Length == p.n && Working(p, s0, pointStates[..], idx, cluster, pending)
      requires Gathered(p, idx, x) && pointStates[x] != Classified
      modifies pointStates
      ensures cluster' == cluster + [x] && pending' == pending - {x} + (if Core(p, x) then RegionSet(p, x) else {})
      ensures Working(p, s0, pointStates[..], idx, cluster', pending')
      ensures Open(pointStates[..]) < old(Open(pointStates[..]))
    {
      Classify(p, s0, pointStates[..], idx, cluster, pending, x);
      ClassifyShrinks(pointStates[..], x);
      pointStates[x] := Classified;
      assert pointStates[..] == old(pointStates[..])[x := Classified];
      cluster' := cluster + [x];
      pending' := pending - {x} + (if Core(p, x) then RegionSet(p, x) else {});
    }

    /** The innermost loop: the neighbours of a point that was just collected. */
    method ExpandNeighbours(ghost s0: seq<State>, idx: nat, it: nat, expand: seq<nat>, cluster: seq<nat>,
                            added: seq<nat>, ghost pending: set<nat>)
        returns (cluster': seq<nat>, added': seq<nat>, ghost pending': set<nat>)
      requires pointStates.Length == p.n && Working(p, s0, pointStates[..], idx, cluster, pending)
      requires expand == Region(p, it) && Gathered(p, idx, it)
      requires forall v :: v in added ==> Gathered(p, idx, v)
      modifies pointStates
      ensures Working(p, s0, pointStates[..], idx, cluster', pending')
      ensures Open(pointStates[..]) <= old(Open(pointStates[..])) && added <= added' && cluster <= cluster'
      ensures forall v :: v in added' ==> Gathered(p, idx, v)
      ensures forall v :: v in pending' ==> v in pending && (v in added' || !Core(p, it) || v !in expand)
    {
      cluster', added', pending' := cluster, added, pending;
      if Core(p, it) {
        forall v | v in expand ensures Gathered(p, idx, v) { RegionGathered(p, idx, it, v); }
      }
      for i := 0 to |expand|
        invariant Working(p, s0, pointStates[..], idx, cluster', pending')
        invariant Open(pointStates[..]) <= old(Open(pointStates[..])) && added <= added' && cluster <= cluster'
        invariant forall v :: v in added' ==> Gathered(p, idx, v)
        invariant pending' <= pending
        invariant forall v :: v in pending' && Core(p, it) && v in expand[..i] ==> v in added'
      {
        var v := expand[i];
        assert v in expand && expand[..i + 1] == expand[..i] + [v];
        if |expand| >= p.minCore {
          if pointStates[v] == Classified {
            pending' := pending' - {v};
            continue;
          }
          if pointStates[v] == Unclassified {
            added' := added' + [v];
          } else {
            cluster', pending' := Collect(s0, idx, v, cluster', pending');
          }
        }
      }
    }

    /** One pass of the do-while loop over the current frontier. */
    method ExpandFrontier(ghost s0: seq<State>, idx: nat, core: seq<nat>, cluster: seq<nat>, ghost pending: set<nat>)
        returns (cluster': seq<nat>, added: seq<nat>, ghost pending': set<nat>)
      requires pointStates.Length == p.n && Working(p, s0, pointStates[..], idx, cluster, pending)
      requires forall v :: v in core ==> Gathered(p, idx, v)
      requires Awaited(pending, core, [])
      modifies pointStates
      ensures Working(p, s0, pointStates[..], idx, cluster', pending')
      ensures Open(pointStates[..]) <= old(Open(pointStates[..])) && cluster <= cluster'
      ensures added != [] ==> Open(pointStates[..]) < old(Open(pointStates[..]))
      ensures forall v :: v in added ==> Gathered(p, idx, v)
      ensures Awaited(pending', [], added)
    {
      cluster', added, pending' := cluster, [], pending;
      for k := 0 to |core|
        invariant Working(p, s0, pointStates[..], idx, cluster', pending')
        invariant Open(pointStates[..]) <= old(Open(pointStates[..])) && cluster <= cluster'
        invariant added != [] ==> Open(pointStates[..]) < old(Open(pointStates[..]))
        invariant forall v :: v in added ==> Gathered(p, idx, v)
        invariant Awaited(pending', core[k..], added)
      {
        var it := core[k];
        assert it in core && Gathered(p, idx, it);
        AwaitedNext(pending', core, k, added);
        ghost var left := pending' - {it};
        if pointStates[it] == Classified {
          pending' := left;
          continue;
        }
        cluster', pending' := Collect(s0, idx, it, cluster', pending');
        var expand := RegionQuery(it);
        ghost var queued := added;
        cluster', added, pending' := ExpandNeighbours(s0, idx, it, expand, cluster', added, pending');
        AwaitedGrows(p, it, left, pending', core[k + 1..], queued, added);
      }
      assert core[|core|..] == [];
    }

    method ExpandCluster(idx: nat) returns (cluster: seq<nat>)
      requires pointStates.Length == p.n && idx < p.n && pointStates[idx] == Unclassified
      requires Closed(p, pointStates[..], {}) && NoiseIsNotCore(p, pointStates[..])
      modifies pointStates
      ensures !Core(p, idx) ==> cluster == [] && pointStates[..] == old(pointStates[..])[idx := Noise]
      ensures Core(p, idx) ==> Working(p, old(pointStates[..]), pointStates[..], idx, cluster, {}) && cluster[0] == idx
    {
      cluster := [];
      ghost var s0 := pointStates[..];
      var core := RegionQuery(idx);
      if |core| < p.minCore {
        pointStates[idx] := Noise;
        assert pointStates[..] == s0[idx := Noise];
      } else {
        Start(p, s0, idx);
        pointStates[idx] := Classified;
        assert pointStates[..] == s0[idx := Classified];
        cluster := [idx];
        ghost var pending := RegionSet(p, idx);
        forall v | v in core ensures Gathered(p, idx, v) { RegionGathered(p, idx, idx, v); }
        // an empty frontier makes the body do nothing, so testing first is the same as the source's do-while
        while core != []
          invariant Working(p, s0, pointStates[..], idx, cluster, pending) && cluster[0] == idx
          invariant forall v :: v in core ==> Gathered(p, idx, v)
          invariant forall v :: v in pending ==> v in core
          decreases Open(pointStates[..]), |core|
        {
          cluster, core, pending := ExpandFrontier(s0, idx, core, cluster, pending);
        }
        assert pending == {};
      }
    }

    /** One pass of batch: expands an unclassified point and reports the cluster if it is large enough. */
    method ExpandFrom(i: nat)
      requires pointStates.Length == p.n && i < p.n && pointStates[i].Unclassified?
      requires Progress(p, pointStates[..], expansions, clusters, i)
      modifies this`clusters, this`expansions, pointStates
      ensures Progress(p, pointStates[..], expansions, clusters, i + 1)
    {
      ghost var s0 := pointStates[..];
      var cluster := ExpandCluster(i);
      ghost var s := pointStates[..];
      ghost var grown := if Core(p, i) then expansions + [cluster] else expansions;
      ghost var kept := Kept(p, clusters, cluster);
      ProgressExpanded(p, s0, s, expansions, clusters, i, cluster);
      expansions := grown;
      if |cluster| >= p.minCore {
        clusters := clusters + [cluster];
      }
      assert clusters == kept;
      assert pointStates[..] == s;
    }

    method Batch()
      modifies this
      ensures pointStates.Length == p.n && fresh(pointStates)
      ensures forall u :: 0 <= u < p.n ==> pointStates[u] == if Dense(p, u) then Classified else Noise
      ensures Partition(p, pointStates[..], expansions) && clusters == Large(p, expansions)
      ensures Ordered(p, expansions, p.n)
      ensures p.Symmetric() ==> HoldsLinked(p, expansions)
    {
      clusters, expansions := [], [];
      pointStates := new State[p.n](_ => Unclassified);
      for i := 0 to p.n
        invariant pointStates.Length == p.n && fresh(pointStates)
        invariant Progress(p, pointStates[..], expansions, clusters, i)
      {
        if pointStates[i] != Unclassified {
          ProgressSkip(p, pointStates[..], expansions, clusters, i);
          continue;
        }
        ExpandFrom(i);
      }
      ProgressDone(p, pointStates[..], expansions, clusters);
    }
  }

  // ----- what the expansions of a finished batch are

  /** Two core points are collected by the same expansion exactly when a chain of core points, each
      closer than eps to the next, leads from one to the other. */
  lemma SameExpansionIffLinked(p: Problem, s: seq<State>, expansions: seq<seq<nat>>, u: nat, v: nat)
    requires p.Symmetric() && |s| == p.n && Partition(p, s, expansions) && HoldsLinked(p, expansions)
    requires Core(p, u) && Core(p, v) && s[u].Classified?
    ensures (exists e :: 0 <= e < |expansions| && u in expansions[e] && v in expansions[e]) <==> Linked(p, u, v)
  {
    forall e | 0 <= e < |expansions| && u in expansions[e]
      ensures v in expansions[e] <==> Linked(p, u, v)
    {
      assert Expansion(p, s, expansions[e]);
      var start := expansions[e][0];
      LinkedSymmetric(p, start, u);
      if Linked(p, u, v) {
        LinkedTrans(p, start, u, v);
      }
      if v in expansions[e] {
        LinkedTrans(p, u, start, v);
      }
    }
    assert Covered(expansions, u);
  }

  /** Connectivity in the graph that joins any two points closer than eps. */
  ghost predicate Walk(p: Problem, path: seq<nat>) {
    && path != [] && (forall k :: 0 <= k < |path| ==> path[k] < p.n)
    && (forall k :: 0 <= k < |path| - 1 ==> p.Near(path[k + 1], path[k]))
  }

  ghost predicate Connected(p: Problem, u: nat, v: nat) {
    exists path :: Walk(p, path) && path[0] == u && path[|path| - 1] == v
  }

  lemma ConnectedIsLinked(p: Problem, u: nat, v: nat)
    requires forall w :: 0 <= w < p.n ==> Core(p, w)
    ensures Connected(p, u, v) <==> Linked(p, u, v)
  {
    if Connected(p, u, v) {
      var path :| Walk(p, path) && path[0] == u && path[|path| - 1] == v;
      assert Links(p, path, u, v);
    }
    if Linked(p, u, v) {
      var path :| Links(p, path, u, v);
      assert Walk(p, path);
    }
  }

  lemma {:induction false} AllLarge(p: Problem, expansions: seq<seq<nat>>)
    requires p.minCore <= 1 && forall e :: 0 <= e < |expansions| ==> expansions[e] != []
    ensures Large(p, expansions) == expansions
  {
    if expansions != [] {
      var n := |expansions| - 1;
      AllLarge(p, expansions[..n]);
      assert expansions[..n] + [expansions[n]] == expansions;
    }
  }

  /** With a minimum of one the reported clusters are exactly the connected components: every point is
      reported in exactly one cluster, and two points share it exactly when they are connected. */
  lemma MinimumOneGivesComponents(p: Problem, s: seq<State>, expansions: seq<seq<nat>>, u: nat, v: nat)
    requires p.Symmetric() && p.minCore == 1 && forall w :: 0 <= w < p.n ==> p.Near(w, w)
    requires |s| == p.n && Partition(p, s, expansions) && HoldsLinked(p, expansions)
    requires (forall w :: 0 <= w < p.n ==> s[w] == if Dense(p, w) then Classified else Noise)
    requires u < p.n && v < p.n
    ensures var clusters := Large(p, expansions);
            && Covered(clusters, u) && Disjoint(clusters)
            && ((exists e :: 0 <= e < |clusters| && u in clusters[e] && v in clusters[e]) <==> Connected(p, u, v))
  {
    forall w: nat | w < p.n ensures Core(p, w) {
      InRegion(p, w, p.n, w);
    }
    AllLarge(p, expansions);
    SameExpansionIffLinked(p, s, expansions, u, v);
    ConnectedIsLinked(p, u, v);
  }
}
