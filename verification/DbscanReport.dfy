/** Which clusters a batch of density clustering reports (jubatus/core/clustering/dbscan.cpp). */
module DbscanReport {
  import opened DbscanSpec
  import opened Dbscan

  /** What Batch establishes. */
  ghost predicate Finished(p: Problem, s: seq<State>, expansions: seq<seq<nat>>) {
    && |s| == p.n && Partition(p, s, expansions) && Ordered(p, expansions, p.n)
    && (forall u :: 0 <= u < p.n ==> s[u] == if Dense(p, u) then Classified else Noise)
  }

  /** A core point that no core point of smaller index is linked to: the least one of its component. */
  ghost predicate LeastCore(p: Problem, i: nat) {
    Core(p, i) && forall j: nat :: j < i && Core(p, j) ==> !Linked(p, j, i)
  }

  ghost predicate Owns(p: Problem, i: nat, u: nat) {
    Gathered(p, i, u) && forall j: nat :: j < i && LeastCore(p, j) ==> !Gathered(p, j, u)
  }

  /** The points gathered from i and from no component with a smaller least core point. */
  ghost function Owned(p: Problem, i: nat): set<nat> {
    set u: nat | u < p.n && Owns(p, i, u)
  }

  lemma LinkedIsGathered(p: Problem, i: nat, j: nat)
    requires Linked(p, i, j)
    ensures Gathered(p, i, j)
  {
    var path :| Links(p, path, i, j);
    if |path| > 1 {
      var w := path[|path| - 2];
      assert Links(p, path[..|path| - 1], i, w);
      assert p.Near(path[|path| - 2 + 1], path[|path| - 2]);
    }
  }

  lemma CoreIsCovered(p: Problem, s: seq<State>, expansions: seq<seq<nat>>, u: nat) returns (e: nat)
    requires Finished(p, s, expansions) && Core(p, u)
    ensures e < |expansions| && u in expansions[e] && expansions[e][0] <= u && Linked(p, expansions[e][0], u)
  {
    assert Covered(expansions, u);
    e :| 0 <= e < |expansions| && u in expansions[e];
    assert Expansion(p, s, expansions[e]);
    GatheredCoreIsLinked(p, expansions[e][0], u);
  }

  lemma StartIsLeast(p: Problem, s: seq<State>, expansions: seq<seq<nat>>, e: nat)
    requires Finished(p, s, expansions) && p.Symmetric() && e < |expansions|
    ensures LeastCore(p, expansions[e][0])
  {
    var start := expansions[e][0];
    assert Expansion(p, s, expansions[e]);
    assert start in expansions[e] && FirstGathered(p, expansions, e, start);
    forall j: nat | j < start && Core(p, j) ensures !Linked(p, j, start) {
      var d := CoreIsCovered(p, s, expansions, j);
      if Linked(p, j, start) {
        LinkedTrans(p, expansions[d][0], j, start);
        LinkedIsGathered(p, expansions[d][0], start);
      }
    }
  }

  lemma LeastIsStart(p: Problem, s: seq<State>, expansions: seq<seq<nat>>, i: nat) returns (e: nat)
    requires Finished(p, s, expansions) && LeastCore(p, i)
    ensures e < |expansions| && expansions[e][0] == i
  {
    e := CoreIsCovered(p, s, expansions, i);
    assert Expansion(p, s, expansions[e]);
  }

  lemma FirstOwns(p: Problem, s: seq<State>, expansions: seq<seq<nat>>, e: nat, u: nat)
    requires Finished(p, s, expansions) && e < |expansions| && FirstGathered(p, expansions, e, u)
    ensures Owns(p, expansions[e][0], u)
  {
    forall j: nat | j < expansions[e][0] && LeastCore(p, j) ensures !Gathered(p, j, u) {
      var d := LeastIsStart(p, s, expansions, j);
    }
  }

  lemma OwnerIsFirst(p: Problem, s: seq<State>, expansions: seq<seq<nat>>, e: nat, u: nat)
    requires Finished(p, s, expansions) && p.Symmetric() && e < |expansions| && Owns(p, expansions[e][0], u)
    ensures FirstGathered(p, expansions, e, u)
  {
    forall d | 0 <= d < e ensures !Gathered(p, expansions[d][0], u) {
      StartIsLeast(p, s, expansions, d);
    }
  }

  /** An expansion holds exactly the points its start owns. */
  lemma ExpansionIsOwned(p: Problem, s: seq<State>, expansions: seq<seq<nat>>, e: nat, u: nat)
    requires Finished(p, s, expansions) && p.Symmetric() && e < |expansions|
    ensures u in expansions[e] <==> u in Owned(p, expansions[e][0])
  {
    assert u in expansions[e] <==> FirstGathered(p, expansions, e, u);
    if FirstGathered(p, expansions, e, u) {
      FirstOwns(p, s, expansions, e, u);
    }
    if Owns(p, expansions[e][0], u) {
      OwnerIsFirst(p, s, expansions, e, u);
    }
  }

  lemma {:induction false} SizeOfDistinct(xs: seq<nat>, s: set<nat>)
    requires NoDuplicates(xs) && forall u :: u in xs <==> u in s
    ensures |xs| == |s|
  {
    if xs == [] {
      assert s == {};
    } else {
      var front, last := xs[..|xs| - 1], xs[|xs| - 1];
      forall u ensures u in front <==> u in s - {last} {
        assert xs == front + [last];
      }
      SizeOfDistinct(front, s - {last});
    }
  }

  lemma {:induction false} LargeHolds(p: Problem, expansions: seq<seq<nat>>, c: seq<nat>)
    ensures c in Large(p, expansions) <==> c in expansions && |c| >= p.minCore
  {
    if expansions != [] {
      var n := |expansions| - 1;
      LargeHolds(p, expansions[..n], c);
      assert expansions == expansions[..n] + [expansions[n]];
    }
  }

  ghost predicate Reported(clusters: seq<seq<nat>>, i: nat) {
    exists k :: 0 <= k < |clusters| && clusters[k] != [] && clusters[k][0] == i
  }

  /** A component, named by its least core point, is reported if and only if that point owns at least the
      minimum number of points; then all points it owns are in a reported cluster, and otherwise none. */
  lemma ReportedIff(p: Problem, s: seq<State>, expansions: seq<seq<nat>>, i: nat)
    requires Finished(p, s, expansions) && p.Symmetric() && LeastCore(p, i)
    ensures Reported(Large(p, expansions), i) <==> |Owned(p, i)| >= p.minCore
    ensures forall u :: u in Owned(p, i) ==> (Covered(Large(p, expansions), u) <==> |Owned(p, i)| >= p.minCore)
  {
    var clusters := Large(p, expansions);
    var e := LeastIsStart(p, s, expansions, i);
    OwnedSize(p, s, expansions, e);
    LargeHolds(p, expansions, expansions[e]);
    if expansions[e] in clusters {
      var k :| 0 <= k < |clusters| && clusters[k] == expansions[e];
      assert clusters[k] != [] && clusters[k][0] == i;
    }
    OwnIsReported(p, s, expansions, e, i);
    if Reported(clusters, i) {
      var k :| 0 <= k < |clusters| && clusters[k] != [] && clusters[k][0] == i;
      assert i in clusters[k] && Covered(clusters, i);
    }
    forall u | u in Owned(p, i) ensures Covered(clusters, u) <==> |Owned(p, i)| >= p.minCore {
      OwnIsReported(p, s, expansions, e, u);
    }
  }

  lemma OwnIsReported(p: Problem, s: seq<State>, expansions: seq<seq<nat>>, e: nat, u: nat)
    requires Finished(p, s, expansions) && p.Symmetric() && e < |expansions|
    ensures u in Owned(p, expansions[e][0]) || u == expansions[e][0] ==>
              (Covered(Large(p, expansions), u) <==> |expansions[e]| >= p.minCore)
  {
    var clusters := Large(p, expansions);
    ExpansionIsOwned(p, s, expansions, e, u);
    LargeHolds(p, expansions, expansions[e]);
    if u in expansions[e] {
      forall k | 0 <= k < |clusters| && u in clusters[k] ensures clusters[k] == expansions[e] {
        OnlyExpansion(p, s, expansions, e, clusters[k], u);
      }
    }
  }

  lemma OwnedSize(p: Problem, s: seq<State>, expansions: seq<seq<nat>>, e: nat)
    requires Finished(p, s, expansions) && p.Symmetric() && e < |expansions|
    ensures |expansions[e]| == |Owned(p, expansions[e][0])|
  {
    assert Expansion(p, s, expansions[e]);
    forall u { ExpansionIsOwned(p, s, expansions, e, u); }
    SizeOfDistinct(expansions[e], Owned(p, expansions[e][0]));
  }

  lemma OnlyExpansion(p: Problem, s: seq<State>, expansions: seq<seq<nat>>, e: nat, c: seq<nat>, u: nat)
    requires Finished(p, s, expansions) && e < |expansions|
    requires c in Large(p, expansions) && u in c && u in expansions[e]
    ensures c == expansions[e]
  {
    LargeHolds(p, expansions, c);
    var d :| 0 <= d < |expansions| && expansions[d] == c;
  }

  // ----- seven points on a line

  const POSITIONS: seq<real> := [0.0, -0.6, -0.9, 0.75, 1.5, 2.1, 2.4]

  function Apart(u: nat, v: nat): real {
    if u < 7 && v < 7 then
      if POSITIONS[u] < POSITIONS[v] then POSITIONS[v] - POSITIONS[u] else POSITIONS[u] - POSITIONS[v]
    else 0.0
  }

  ghost predicate IsLine(p: Problem) {
    p.n == 7 && p.eps == 1.0 && p.minCore == 4 && forall u: nat, v: nat :: p.dist(u, v) == Apart(u, v)
  }

  lemma LineNear(p: Problem, u: nat, v: nat)
    requires IsLine(p) && u < 7 && v < 7
    ensures p.Near(u, v) <==> Apart(u, v) < 1.0
  {
  }

  /** The region of one point, as a list of answers. */
  lemma LineRegion(p: Problem, v: nat)
    requires IsLine(p) && v < 7
    ensures |Region(p, v)| == (if Apart(0, v) < 1.0 then 1 else 0) + (if Apart(1, v) < 1.0 then 1 else 0)
                              + (if Apart(2, v) < 1.0 then 1 else 0) + (if Apart(3, v) < 1.0 then 1 else 0)
                              + (if Apart(4, v) < 1.0 then 1 else 0) + (if Apart(5, v) < 1.0 then 1 else 0)
                              + (if Apart(6, v) < 1.0 then 1 else 0)
  {
    forall u: nat | u < 7 { LineNear(p, u, v); }
    var r1 := RegionUpTo(p, v, 1);
    assert RegionUpTo(p, v, 0) == [];
    assert |r1| == if Apart(0, v) < 1.0 then 1 else 0;
    assert |RegionUpTo(p, v, 2)| == |r1| + if Apart(1, v) < 1.0 then 1 else 0;
    var r3 := RegionUpTo(p, v, 3);
    assert |r3| == |RegionUpTo(p, v, 2)| + if Apart(2, v) < 1.0 then 1 else 0;
    assert |RegionUpTo(p, v, 4)| == |r3| + if Apart(3, v) < 1.0 then 1 else 0;
    var r5 := RegionUpTo(p, v, 5);
    assert |r5| == |RegionUpTo(p, v, 4)| + if Apart(4, v) < 1.0 then 1 else 0;
    assert |RegionUpTo(p, v, 6)| == |r5| + if Apart(5, v) < 1.0 then 1 else 0;
    assert |RegionUpTo(p, v, 7)| == |RegionUpTo(p, v, 6)| + if Apart(6, v) < 1.0 then 1 else 0;
  }

  lemma LineCores(p: Problem, u: nat)
    requires IsLine(p)
    ensures Core(p, u) <==> u == 0 || u == 4
  {
    if u < 7 {
      LineRegion(p, u);
    }
  }

  lemma {:induction false} LineStays(p: Problem, path: seq<nat>)
    requires IsLine(p) && Chain(p, path)
    ensures path[|path| - 1] == path[0]
    decreases |path|
  {
    LineCores(p, path[0]);
    if |path| > 1 {
      assert Core(p, path[1]) && p.Near(path[0 + 1], path[0]);
      LineCores(p, path[1]);
      assert Chain(p, path[1..]);
      LineStays(p, path[1..]);
    }
  }

  lemma LineLinked(p: Problem, u: nat, v: nat)
    requires IsLine(p)
    ensures Linked(p, u, v) <==> u == v && (u == 0 || u == 4)
  {
    LineCores(p, u);
    if Linked(p, u, v) {
      var path :| Links(p, path, u, v);
      assert Core(p, path[0]);
      LineStays(p, path);
    } else if u == v && Core(p, u) {
      LinkedSelf(p, u);
    }
  }

  lemma LineGathered(p: Problem, i: nat, u: nat)
    requires IsLine(p) && (i == 0 || i == 4) && u < 7
    ensures Gathered(p, i, u) <==> p.Near(u, i)
  {
    forall w { LineLinked(p, i, w); }
  }

  /** The border point at 0.75 goes with the core point at 0, so the one at 1.5 owns three points only: the
      batch reports no cluster for it, although it is a core point. */
  lemma CoreNotReported(p: Problem, s: seq<State>, expansions: seq<seq<nat>>)
    requires IsLine(p) && Finished(p, s, expansions)
    ensures Core(p, 4) && s[4] == Classified && !Covered(Large(p, expansions), 4)
    ensures Reported(Large(p, expansions), 0)
  {
    LineSizes(p);
    LineCores(p, 4);
    LineLeast(p);
    ReportedIff(p, s, expansions, 4);
    ReportedIff(p, s, expansions, 0);
  }

  lemma LineLeast(p: Problem)
    requires IsLine(p)
    ensures p.Symmetric() && LeastCore(p, 0) && LeastCore(p, 4)
    ensures forall j: nat :: j < 4 && LeastCore(p, j) ==> j == 0
  {
    LineCores(p, 0);
    LineCores(p, 4);
    forall j: nat | j < 4 && Core(p, j) ensures j == 0 && !Linked(p, j, 4) {
      LineCores(p, j);
      LineLinked(p, j, 4);
    }
  }

  lemma LineOwns(p: Problem, u: nat)
    requires IsLine(p) && u < 7
    ensures (Owns(p, 0, u) <==> u < 4) && (Owns(p, 4, u) <==> 4 <= u)
  {
    LineLeast(p);
    LineGathered(p, 0, u);
    LineGathered(p, 4, u);
    LineNear(p, u, 0);
    LineNear(p, u, 4);
  }

  lemma LineOwned(p: Problem)
    requires IsLine(p)
    ensures Owned(p, 0) == {0, 1, 2, 3} && Owned(p, 4) == {4, 5, 6}
  {
    forall u: nat | u < 7 { LineOwns(p, u); }
    assert forall u: nat :: u < 7 ==> (u in Owned(p, 0) <==> u < 4);
    assert forall u: nat :: u < 7 ==> (u in Owned(p, 4) <==> 4 <= u);
  }

  lemma LineSizes(p: Problem)
    requires IsLine(p)
    ensures |Owned(p, 0)| == 4 && |Owned(p, 4)| == 3 && 4 in Owned(p, 4)
  {
    LineOwned(p);
    assert |{0, 1, 2, 3}| == 4 && |{4, 5, 6}| == 3;
  }

  /** The code on these points. */
  method BatchOnLine() returns (d: Dbscan)
    ensures IsLine(d.p) && d.pointStates.Length == 7 && d.pointStates[4] == Classified && Core(d.p, 4)
    ensures !Covered(d.clusters, 4)
  {
    d := new Dbscan(Problem(7, Apart, 1.0, 4));
    d.Batch();
    CoreNotReported(d.p, d.pointStates[..], d.expansions);
  }
}
