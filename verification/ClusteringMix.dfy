/** The MIX of the clustering storages: every server offers its own coreset under its name, and receives
    those of all the others (jubatus/core/clustering/storage.cpp, jubatus/core/common/portable_mixer.hpp). */
module ClusteringMix {
  import Compressor
  import opened Options

  type Point = Compressor.Point

  /** Server names in the order of the program's string comparison. */
  type Name = int

  datatype Entry = Entry(name: Name, coreset: seq<Point>)

  type Diff = seq<Entry>

  // ----- one entry mixed into a diff

  function Joined(l: Entry, r: Entry): Entry {
    Entry(r.name, r.coreset + l.coreset)
  }

  function Insert(e: Entry, d: Diff): Diff {
    if d == [] then [e]
    else if e.name < d[0].name then [e] + d
    else if e.name > d[0].name then [d[0]] + Insert(e, d[1..])
    else [Joined(e, d[0])] + d[1..]
  }

  /** What the diff holds under a name. */
  function Held(d: Diff, name: Name): seq<Point> {
    if d == [] then [] else if d[0].name == name then d[0].coreset + Held(d[1..], name) else Held(d[1..], name)
  }

  function Names(d: Diff): set<Name> {
    if d == [] then {} else {d[0].name} + Names(d[1..])
  }

  /** Sorted by name, each name once. */
  ghost predicate Sorted(d: Diff) {
    d != [] ==> (forall n :: n in Names(d[1..]) ==> d[0].name < n) && Sorted(d[1..])
  }

  // ----- a diff mixed into a diff

  function Prepend(e: Entry, d: Option<Diff>): Option<Diff> {
    if d.None? then None else Some([e] + d.value)
  }

  /** None where the code would read the end iterator that an insertion has invalidated: the vector has
      grown and entries of lhs remain. */
  function MixDiffs(lhs: Diff, ret: Diff): Option<Diff>
    decreases |ret|
  {
    if lhs == [] then Some(ret)
    else if ret == [] then Some(lhs)
    else if lhs[0].name < ret[0].name then if |lhs| == 1 then Some(lhs + ret) else None
    else if lhs[0].name > ret[0].name then Prepend(ret[0], MixDiffs(lhs, ret[1..]))
    else Prepend(Joined(lhs[0], ret[0]), MixDiffs(lhs[1..], ret[1..]))
  }

  /** The answer once the entries of done are behind the iterator. */
  function Behind(done: Diff, d: Option<Diff>): Option<Diff> {
    if d.None? then None else Some(done + d.value)
  }

  lemma BehindOne(done: Diff, e: Entry, d: Option<Diff>)
    ensures Behind(done, Prepend(e, d)) == Behind(done + [e], d)
  {
    if d.Some? {
      assert done + ([e] + d.value) == done + [e] + d.value;
    }
  }

  lemma BehindNone(lhs: Diff, ret: Diff)
    ensures MixDiffs(lhs, ret) == Behind(ret[..0], MixDiffs(lhs[0..], ret[0..]))
  {
    assert lhs[0..] == lhs && ret[0..] == ret;
    var d := MixDiffs(lhs, ret);
    if d.Some? {
      assert ret[..0] + d.value == d.value;
    }
  }

  lemma PassRight(lhs: Diff, ret: Diff, l: nat, b: nat)
    requires l < |lhs| && b < |ret| && lhs[l].name > ret[b].name
    ensures Behind(ret[..b], MixDiffs(lhs[l..], ret[b..])) == Behind(ret[..b + 1], MixDiffs(lhs[l..], ret[b + 1..]))
  {
    assert ret[b..][1..] == ret[b + 1..];
    assert ret[..b] + [ret[b]] == ret[..b + 1];
    BehindOne(ret[..b], ret[b], MixDiffs(lhs[l..], ret[b + 1..]));
  }

  lemma JoinBoth(lhs: Diff, ret: Diff, l: nat, b: nat)
    requires l < |lhs| && b < |ret| && lhs[l].name == ret[b].name
    ensures var next := ret[b := Joined(lhs[l], ret[b])];
            Behind(ret[..b], MixDiffs(lhs[l..], ret[b..]))
            == Behind(next[..b + 1], MixDiffs(lhs[l + 1..], next[b + 1..]))
  {
    var e := Joined(lhs[l], ret[b]);
    var next := ret[b := e];
    assert ret[b..][1..] == ret[b + 1..] == next[b + 1..] && lhs[l..][1..] == lhs[l + 1..];
    assert ret[..b] + [e] == next[..b + 1];
    BehindOne(ret[..b], e, MixDiffs(lhs[l + 1..], ret[b + 1..]));
  }

  /** storage::mix. */
  method Mix(lhs: Diff, ret: Diff) returns (out: Option<Diff>)
    ensures out == MixDiffs(lhs, ret)
  {
    var mixed := ret;
    var l, b := 0, 0;
    BehindNone(lhs, ret);
    while l < |lhs| && b < |mixed|
      invariant l <= |lhs| && b <= |mixed|
      invariant MixDiffs(lhs, ret) == Behind(mixed[..b], MixDiffs(lhs[l..], mixed[b..]))
      decreases |lhs| - l, |mixed| - b
    {
      if lhs[l].name < mixed[b].name {
        if l + 1 < |lhs| {
          return None;
        }
        ghost var was := mixed;
        mixed := mixed[..b] + [lhs[l]] + mixed[b..];
        InsertedLast(lhs, was, mixed, l, b);
        l := l + 1;
      } else if lhs[l].name > mixed[b].name {
        PassRight(lhs, mixed, l, b);
        b := b + 1;
      } else {
        JoinBoth(lhs, mixed, l, b);
        mixed := mixed[b := Entry(mixed[b].name, mixed[b].coreset + lhs[l].coreset)];
        b, l := b + 1, l + 1;
      }
    }
    Copied(lhs, mixed, l, b);
    out := Some(mixed + lhs[l..]);
  }

  lemma InsertedLast(lhs: Diff, was: Diff, mixed: Diff, l: nat, b: nat)
    requires l + 1 == |lhs| && b < |was| && lhs[l].name < was[b].name && mixed == was[..b] + [lhs[l]] + was[b..]
    ensures Behind(was[..b], MixDiffs(lhs[l..], was[b..])) == Behind(mixed[..b], MixDiffs(lhs[l + 1..], mixed[b..]))
  {
    assert lhs[l..] == [lhs[l]];
    assert mixed[..b] == was[..b] && mixed[b..] == [lhs[l]] + was[b..];
  }

  lemma Copied(lhs: Diff, mixed: Diff, l: nat, b: nat)
    requires l <= |lhs| && b <= |mixed| && (l == |lhs| || b == |mixed|)
    ensures Behind(mixed[..b], MixDiffs(lhs[l..], mixed[b..])) == Some(mixed + lhs[l..])
  {
    if l == |lhs| {
      assert mixed[..b] + mixed[b..] == mixed == mixed + lhs[l..];
    } else {
      assert mixed[..b] == mixed;
    }
  }

  /** A diff of one entry, as every server offers it, is always mixed. */
  lemma {:induction false} OneEntryMixes(e: Entry, ret: Diff)
    ensures MixDiffs([e], ret) == Some(Insert(e, ret))
  {
    if ret != [] && e.name > ret[0].name {
      OneEntryMixes(e, ret[1..]);
    } else if ret != [] && e.name == ret[0].name {
      assert [e][1..] == [];
    }
  }

  ghost predicate Above(n: Name, d: Diff) {
    forall m :: m in Names(d) ==> m < n
  }

  /** The entry joins one of ret's, or is copied behind all of them. */
  ghost predicate Fits(e: Entry, ret: Diff) {
    e.name in Names(ret) || Above(e.name, ret)
  }

  ghost predicate AllButLastFit(lhs: Diff, ret: Diff) {
    forall i :: 0 <= i < |lhs| - 1 ==> Fits(lhs[i], ret)
  }

  /** Mixing sorted diffs is defined if and only if no entry of lhs but the last one is inserted between
      entries of ret. */
  lemma {:induction false} MixedIff(lhs: Diff, ret: Diff)
    requires Sorted(lhs) && Sorted(ret)
    ensures MixDiffs(lhs, ret).Some? <==> AllButLastFit(lhs, ret)
    decreases |ret|
  {
    if lhs == [] || ret == [] {
    } else if lhs[0].name < ret[0].name {
      if |lhs| > 1 {
        FirstBetween(lhs[0], ret);
      }
    } else if lhs[0].name > ret[0].name {
      MixedIff(lhs, ret[1..]);
      forall i | 0 <= i < |lhs| - 1 ensures Fits(lhs[i], ret) <==> Fits(lhs[i], ret[1..]) {
        FirstIsLeast(lhs, i);
        FitsRest(lhs[i], ret);
      }
    } else {
      MixedIff(lhs[1..], ret[1..]);
      forall i | 1 <= i < |lhs| - 1 ensures Fits(lhs[i], ret) <==> Fits(lhs[1..][i - 1], ret[1..]) {
        SortedMeans(lhs, 0, i);
        FitsRest(lhs[i], ret);
      }
      FitsShift(lhs, ret);
    }
  }

  lemma FirstIsLeast(d: Diff, i: nat)
    requires Sorted(d) && i < |d|
    ensures d[0].name <= d[i].name
  {
    if i > 0 {
      SortedMeans(d, 0, i);
    }
  }

  lemma FirstBetween(e: Entry, ret: Diff)
    requires ret != [] && Sorted(ret) && e.name < ret[0].name
    ensures !Fits(e, ret)
  {
    assert ret[0].name in Names(ret);
  }

  lemma FitsRest(e: Entry, ret: Diff)
    requires ret != [] && e.name > ret[0].name
    ensures Fits(e, ret) <==> Fits(e, ret[1..])
  {
    assert Names(ret) == {ret[0].name} + Names(ret[1..]);
  }

  lemma FitsShift(lhs: Diff, ret: Diff)
    requires lhs != [] && ret != [] && lhs[0].name == ret[0].name
    requires forall i :: 1 <= i < |lhs| - 1 ==> (Fits(lhs[i], ret) <==> Fits(lhs[1..][i - 1], ret[1..]))
    ensures AllButLastFit(lhs, ret) <==> AllButLastFit(lhs[1..], ret[1..])
  {
    if AllButLastFit(lhs, ret) {
      forall i | 0 <= i < |lhs[1..]| - 1 ensures Fits(lhs[1..][i], ret[1..]) {
        assert Fits(lhs[i + 1], ret);
      }
    }
    if AllButLastFit(lhs[1..], ret[1..]) {
      forall i | 0 <= i < |lhs| - 1 ensures Fits(lhs[i], ret) {
        if i > 0 {
          assert Fits(lhs[1..][i - 1], ret[1..]);
        }
      }
    }
  }

  ghost predicate MergesNames(d: Diff, lhs: Diff, ret: Diff) {
    Sorted(d) && Names(d) == Names(lhs) + Names(ret)
  }

  /** The entries of both diffs, joined by name. */
  ghost predicate Merges(d: Diff, lhs: Diff, ret: Diff, n: Name) {
    MergesNames(d, lhs, ret) && Held(d, n) == Held(ret, n) + Held(lhs, n)
  }

  /** Where it is defined, mixing sorted diffs is their merge. */
  lemma {:induction false} MixMerges(lhs: Diff, ret: Diff, n: Name)
    requires Sorted(lhs) && Sorted(ret) && MixDiffs(lhs, ret).Some?
    ensures Merges(MixDiffs(lhs, ret).value, lhs, ret, n)
    decreases |ret|
  {
    if lhs == [] || ret == [] {
    } else if lhs[0].name < ret[0].name {
      MergesBefore(lhs, ret, n);
    } else if lhs[0].name > ret[0].name {
      MixMerges(lhs, ret[1..], n);
      MergesRight(lhs, ret, MixDiffs(lhs, ret[1..]).value, n);
    } else {
      MixMerges(lhs[1..], ret[1..], n);
      MergesBoth(lhs, ret, MixDiffs(lhs[1..], ret[1..]).value, n);
    }
  }

  lemma PrependSorted(e: Entry, rest: Diff)
    requires Sorted(rest) && forall m :: m in Names(rest) ==> e.name < m
    ensures Sorted([e] + rest) && Names([e] + rest) == {e.name} + Names(rest)
  {
    assert ([e] + rest)[1..] == rest;
  }

  lemma PrependHeld(e: Entry, rest: Diff, n: Name)
    ensures Held([e] + rest, n) == if e.name == n then e.coreset + Held(rest, n) else Held(rest, n)
  {
    assert ([e] + rest)[1..] == rest;
  }

  /** The first name of a sorted diff is below the others. */
  lemma FirstBelow(d: Diff, m: Name)
    requires d != [] && Sorted(d) && m in Names(d)
    ensures d[0].name <= m
  {
  }

  lemma MergesBefore(lhs: Diff, ret: Diff, n: Name)
    requires |lhs| == 1 && ret != [] && Sorted(ret) && lhs[0].name < ret[0].name
    ensures Merges(lhs + ret, lhs, ret, n)
  {
    var e := lhs[0];
    assert lhs == [e] && lhs[1..] == [];
    forall m | m in Names(ret) ensures e.name < m {
      FirstBelow(ret, m);
    }
    PrependSorted(e, ret);
    PrependHeld(e, ret, n);
    assert Names(lhs) == {e.name};
    if n == e.name {
      HeldNothing(ret, n);
    }
  }

  lemma NamesRight(lhs: Diff, ret: Diff, rest: Diff)
    requires lhs != [] && ret != [] && Sorted(lhs) && Sorted(ret) && lhs[0].name > ret[0].name
    requires MergesNames(rest, lhs, ret[1..])
    ensures MergesNames([ret[0]] + rest, lhs, ret)
  {
    forall m | m in Names(rest) ensures ret[0].name < m {
      if m in Names(lhs) {
        FirstBelow(lhs, m);
      }
    }
    PrependSorted(ret[0], rest);
  }

  lemma HeldRight(lhs: Diff, ret: Diff, rest: Diff, n: Name)
    requires lhs != [] && ret != [] && Sorted(lhs) && Sorted(ret) && lhs[0].name > ret[0].name
    requires Merges(rest, lhs, ret[1..], n)
    ensures Held([ret[0]] + rest, n) == Held(ret, n) + Held(lhs, n)
  {
    PrependHeld(ret[0], rest, n);
    if n == ret[0].name {
      NotBelow(lhs, n);
      HeldNothing(lhs, n);
      HeldNothing(rest, n);
      HeldFirst(ret);
    }
  }

  lemma MergesRight(lhs: Diff, ret: Diff, rest: Diff, n: Name)
    requires lhs != [] && ret != [] && Sorted(lhs) && Sorted(ret) && lhs[0].name > ret[0].name
    requires Merges(rest, lhs, ret[1..], n)
    ensures Merges([ret[0]] + rest, lhs, ret, n)
  {
    NamesRight(lhs, ret, rest);
    HeldRight(lhs, ret, rest, n);
  }

  lemma NamesBoth(lhs: Diff, ret: Diff, rest: Diff)
    requires lhs != [] && ret != [] && Sorted(lhs) && Sorted(ret) && lhs[0].name == ret[0].name
    requires MergesNames(rest, lhs[1..], ret[1..])
    ensures MergesNames([Joined(lhs[0], ret[0])] + rest, lhs, ret)
  {
    PrependSorted(Joined(lhs[0], ret[0]), rest);
  }

  lemma HeldBoth(lhs: Diff, ret: Diff, rest: Diff, n: Name)
    requires lhs != [] && ret != [] && Sorted(lhs) && Sorted(ret) && lhs[0].name == ret[0].name
    requires Merges(rest, lhs[1..], ret[1..], n)
    ensures Held([Joined(lhs[0], ret[0])] + rest, n) == Held(ret, n) + Held(lhs, n)
  {
    PrependHeld(Joined(lhs[0], ret[0]), rest, n);
    if n == ret[0].name {
      HeldFirst(lhs);
      HeldFirst(ret);
      HeldNothing(rest, n);
    }
  }

  lemma MergesBoth(lhs: Diff, ret: Diff, rest: Diff, n: Name)
    requires lhs != [] && ret != [] && Sorted(lhs) && Sorted(ret) && lhs[0].name == ret[0].name
    requires Merges(rest, lhs[1..], ret[1..], n)
    ensures Merges([Joined(lhs[0], ret[0])] + rest, lhs, ret, n)
  {
    NamesBoth(lhs, ret, rest);
    HeldBoth(lhs, ret, rest, n);
  }

  lemma HeldAndRest(d: Diff, n: Name)
    requires d != []
    ensures Held(d, n) == if d[0].name == n then d[0].coreset + Held(d[1..], n) else Held(d[1..], n)
    ensures Names(d) == {d[0].name} + Names(d[1..])
  {
  }

  // ----- what an insertion does

  lemma {:induction false} NameAt(d: Diff, i: nat)
    requires i < |d|
    ensures d[i].name in Names(d)
  {
    if i > 0 {
      NameAt(d[1..], i - 1);
    }
  }

  lemma {:induction false} SortedMeans(d: Diff, i: nat, j: nat)
    requires Sorted(d) && i < j < |d|
    ensures d[i].name < d[j].name
  {
    if i > 0 {
      SortedMeans(d[1..], i - 1, j - 1);
    } else {
      NameAt(d[1..], j - 1);
    }
  }

  lemma {:induction false} InsertNames(e: Entry, d: Diff)
    ensures Names(Insert(e, d)) == Names(d) + {e.name}
  {
    if d != [] && e.name > d[0].name {
      InsertNames(e, d[1..]);
    }
  }

  lemma {:induction false} InsertSorted(e: Entry, d: Diff)
    requires Sorted(d)
    ensures Sorted(Insert(e, d))
  {
    if d != [] && e.name > d[0].name {
      InsertSorted(e, d[1..]);
      InsertNames(e, d[1..]);
    }
  }

  lemma {:induction false} HeldNothing(d: Diff, n: Name)
    requires n !in Names(d)
    ensures Held(d, n) == []
  {
    if d != [] {
      HeldNothing(d[1..], n);
    }
  }

  lemma NotBelow(d: Diff, n: Name)
    requires Sorted(d) && (d == [] || n < d[0].name)
    ensures n !in Names(d)
  {
    if n in Names(d) {
      FirstBelow(d, n);
    }
  }

  lemma {:induction false} InsertHeld(e: Entry, d: Diff, n: Name)
    requires Sorted(d)
    ensures Held(Insert(e, d), n) == Held(d, n) + if n == e.name then e.coreset else []
  {
    if d == [] || e.name < d[0].name {
      if n == e.name {
        NotBelow(d, n);
        HeldNothing(d, n);
      }
      PrependHeld(e, d, n);
      assert [e] + d == Insert(e, d);
    } else if e.name > d[0].name {
      InsertHeld(e, d[1..], n);
      PrependHeld(d[0], Insert(e, d[1..]), n);
      HeldAndRest(d, n);
    } else {
      if n == e.name {
        HeldNothing(d[1..], n);
      }
      PrependHeld(Joined(e, d[0]), d[1..], n);
      HeldAndRest(d, n);
    }
  }

  lemma {:induction false} HeldFirst(d: Diff)
    requires d != [] && Sorted(d)
    ensures Held(d, d[0].name) == d[0].coreset && d[0].name !in Names(d[1..])
  {
    HeldNothing(d[1..], d[0].name);
  }

  lemma HeldRest(d: Diff, n: Name)
    requires d != [] && Sorted(d) && n in Names(d[1..])
    ensures n in Names(d) && Held(d, n) == Held(d[1..], n)
  {
  }

  /** A sorted diff is determined by its names and what it holds under them. */
  lemma {:induction false} Canonical(a: Diff, b: Diff)
    requires Sorted(a) && Sorted(b) && Names(a) == Names(b)
    requires forall n :: n in Names(a) ==> Held(a, n) == Held(b, n)
    ensures a == b
  {
    if a != [] && b != [] {
      HeldFirst(a);
      HeldFirst(b);
      assert a[0].name in Names(b) && b[0].name in Names(a);
      assert a[0] == b[0];
      assert Names(a[1..]) == Names(a) - {a[0].name} && Names(b[1..]) == Names(b) - {b[0].name};
      forall n | n in Names(a[1..]) ensures Held(a[1..], n) == Held(b[1..], n) {
        HeldRest(a, n);
        HeldRest(b, n);
      }
      Canonical(a[1..], b[1..]);
      assert a == [a[0]] + a[1..] && b == [b[0]] + b[1..];
    }
  }

  // ----- the fold over the servers

  datatype Server = Server(name: Name, mine: seq<Point>, common: Diff, revision: nat)

  function Offer(s: Server): Entry {
    Entry(s.name, s.mine)
  }

  /** The diffs of the servers mixed one after the other into the first. */
  function Fold(servers: seq<Server>): Diff {
    if servers == [] then [] else Insert(Offer(servers[|servers| - 1]), Fold(servers[..|servers| - 1]))
  }

  ghost predicate DistinctNames(servers: seq<Server>) {
    forall i, j :: 0 <= i < j < |servers| ==> servers[i].name != servers[j].name
  }

  ghost predicate Known(servers: seq<Server>, n: Name) {
    exists i :: 0 <= i < |servers| && servers[i].name == n
  }

  lemma {:induction false} FoldNames(servers: seq<Server>, n: Name)
    ensures Sorted(Fold(servers))
    ensures n in Names(Fold(servers)) <==> Known(servers, n)
  {
    if servers != [] {
      var k := |servers| - 1;
      FoldNames(servers[..k], n);
      InsertSorted(Offer(servers[k]), Fold(servers[..k]));
      InsertNames(Offer(servers[k]), Fold(servers[..k]));
      assert Known(servers, n) <==> Known(servers[..k], n) || servers[k].name == n by {
        if Known(servers[..k], n) {
          var i :| 0 <= i < k && servers[..k][i].name == n;
          assert servers[i].name == n;
        }
        if Known(servers, n) && servers[k].name != n {
          var i :| 0 <= i < |servers| && servers[i].name == n;
          assert servers[..k][i].name == n;
        }
      }
    }
  }

  lemma {:induction false} FoldHeld(servers: seq<Server>, i: nat)
    requires i < |servers| && DistinctNames(servers)
    ensures Held(Fold(servers), servers[i].name) == servers[i].mine
  {
    var k := |servers| - 1;
    var n := servers[i].name;
    FoldNames(servers[..k], n);
    InsertHeld(Offer(servers[k]), Fold(servers[..k]), n);
    if i < k {
      FoldHeld(servers[..k], i);
    } else {
      assert !Known(servers[..k], n);
      HeldNothing(Fold(servers[..k]), n);
    }
  }

  /** Whatever the order in which the servers are folded, the diff is the same. */
  lemma FoldOrderIrrelevant(a: seq<Server>, b: seq<Server>)
    requires DistinctNames(a) && DistinctNames(b) && forall s :: s in a <==> s in b
    ensures Fold(a) == Fold(b) && Sorted(Fold(a))
  {
    FoldNames(a, 0);
    FoldNames(b, 0);
    forall n ensures n in Names(Fold(a)) <==> n in Names(Fold(b)) {
      FoldNames(a, n);
      FoldNames(b, n);
      KnownToo(a, b, n);
      KnownToo(b, a, n);
    }
    forall n | n in Names(Fold(a)) ensures Held(Fold(a), n) == Held(Fold(b), n) {
      FoldNames(a, n);
      var i :| 0 <= i < |a| && a[i].name == n;
      assert a[i] in b;
      var j :| 0 <= j < |b| && b[j] == a[i];
      FoldHeld(a, i);
      FoldHeld(b, j);
    }
    Canonical(Fold(a), Fold(b));
  }

  lemma KnownToo(a: seq<Server>, b: seq<Server>, n: Name)
    requires forall s :: s in a ==> s in b
    ensures Known(a, n) ==> Known(b, n)
  {
    if Known(a, n) {
      var i :| 0 <= i < |a| && a[i].name == n;
      assert a[i] in b;
      var j :| 0 <= j < |b| && b[j] == a[i];
    }
  }

  // ----- what the servers hold after a round

  function Others(d: Diff, name: Name): Diff {
    if d == [] then [] else (if d[0].name != name then [d[0]] else []) + Others(d[1..], name)
  }

  function Put(s: Server, d: Diff): Server {
    s.(common := Others(d, s.name), revision := s.revision + 1)
  }

  function Points(d: Diff): seq<Point> {
    if d == [] then [] else Points(d[..|d| - 1]) + d[|d| - 1].coreset
  }

  function All(s: Server): seq<Point> {
    s.mine + Points(s.common)
  }

  function AfterMix(servers: seq<Server>): seq<Server> {
    seq(|servers|, i requires 0 <= i < |servers| => Put(servers[i], Fold(servers)))
  }

  /** The points of all servers' own coresets, with their multiplicities. */
  ghost function Everything(servers: seq<Server>): multiset<Point> {
    if servers == [] then multiset{}
    else Everything(servers[..|servers| - 1]) + multiset(servers[|servers| - 1].mine)
  }

  lemma {:induction false} PointsFirst(d: Diff)
    requires d != []
    ensures Points(d) == d[0].coreset + Points(d[1..])
  {
    var k := |d| - 1;
    if k > 0 {
      PointsFirst(d[..k]);
      assert d[..k][1..] == d[1..][..k - 1];
    }
  }

  /** The insertion adds the points of the entry. */
  ghost predicate Adds(e: Entry, d: Diff) {
    multiset(Points(Insert(e, d))) == multiset(Points(d)) + multiset(e.coreset)
  }

  lemma AddsLater(e: Entry, d: Diff)
    requires d != [] && e.name > d[0].name && Adds(e, d[1..])
    ensures Adds(e, d)
  {
    PointsFirst(d);
    PointsFirst(Insert(e, d));
    assert Insert(e, d)[1..] == Insert(e, d[1..]);
  }

  lemma AddsHere(e: Entry, d: Diff)
    requires d == [] || e.name < d[0].name
    ensures Adds(e, d)
  {
    PointsFirst(Insert(e, d));
    assert Insert(e, d)[1..] == d;
  }

  lemma AddsToFirst(e: Entry, d: Diff)
    requires d != [] && e.name == d[0].name
    ensures Adds(e, d)
  {
    PointsFirst(d);
    PointsFirst(Insert(e, d));
    assert Insert(e, d)[1..] == d[1..];
  }

  lemma {:induction false} InsertPoints(e: Entry, d: Diff)
    ensures Adds(e, d)
  {
    if d == [] || e.name < d[0].name {
      AddsHere(e, d);
    } else if e.name > d[0].name {
      InsertPoints(e, d[1..]);
      AddsLater(e, d);
    } else {
      AddsToFirst(e, d);
    }
  }

  lemma {:induction false} FoldPoints(servers: seq<Server>)
    ensures multiset(Points(Fold(servers))) == Everything(servers)
  {
    if servers != [] {
      var k := |servers| - 1;
      FoldPoints(servers[..k]);
      InsertPoints(Offer(servers[k]), Fold(servers[..k]));
    }
  }

  /** The points under a name and those under the other names. */
  ghost predicate Splits(d: Diff, name: Name) {
    multiset(Points(Others(d, name))) + multiset(Held(d, name)) == multiset(Points(d))
  }

  lemma SplitsOther(d: Diff, name: Name)
    requires d != [] && d[0].name != name && Splits(d[1..], name)
    ensures Splits(d, name)
  {
    PointsFirst(d);
    PointsFirst(Others(d, name));
    assert Others(d, name)[1..] == Others(d[1..], name);
  }

  lemma SplitsSame(d: Diff, name: Name)
    requires d != [] && d[0].name == name && Splits(d[1..], name)
    ensures Splits(d, name)
  {
    PointsFirst(d);
    assert Others(d, name) == Others(d[1..], name);
  }

  lemma {:induction false} OthersPoints(d: Diff, name: Name)
    ensures Splits(d, name)
  {
    if d != [] {
      OthersPoints(d[1..], name);
      if d[0].name != name {
        SplitsOther(d, name);
      } else {
        SplitsSame(d, name);
      }
    }
  }

  /** After a round every server sees every server's coreset exactly once, whatever earlier rounds left in
      its common part. */
  lemma RoundGivesUnion(servers: seq<Server>, i: nat)
    requires DistinctNames(servers) && i < |servers|
    ensures multiset(All(AfterMix(servers)[i])) == Everything(servers)
  {
    FoldPoints(servers);
    FoldHeld(servers, i);
    OthersPoints(Fold(servers), servers[i].name);
  }

  // ----- runs: rounds, and servers whose own coresets change between them

  datatype Action = Change(server: nat, mine: seq<Point>) | MixRound

  /** The servers, and what they offered in the last round. */
  datatype Cluster = Cluster(servers: seq<Server>, offered: seq<Server>)

  function Step(c: Cluster, a: Action): Cluster {
    match a
    case Change(i, mine) => if i < |c.servers| then c.(servers := c.servers[i := c.servers[i].(mine := mine)]) else c
    case MixRound => Cluster(AfterMix(c.servers), c.servers)
  }

  function Run(c: Cluster, actions: seq<Action>): Cluster
    decreases actions
  {
    if actions == [] then c else Run(Step(c, actions[0]), actions[1..])
  }

  ghost predicate Inv(c: Cluster) {
    && DistinctNames(c.servers) && |c.offered| == |c.servers|
    && (forall i :: 0 <= i < |c.servers| ==> c.offered[i].name == c.servers[i].name)
    && (forall i :: 0 <= i < |c.servers| ==> c.servers[i].common == Others(Fold(c.offered), c.servers[i].name))
  }

  lemma StepInv(c: Cluster, a: Action)
    requires Inv(c)
    ensures Inv(Step(c, a)) && |Step(c, a).servers| == |c.servers|
  {
  }

  lemma {:induction false} RunInv(c: Cluster, actions: seq<Action>)
    requires Inv(c)
    ensures Inv(Run(c, actions)) && |Run(c, actions).servers| == |c.servers|
    decreases actions
  {
    if actions != [] {
      StepInv(c, actions[0]);
      RunInv(Step(c, actions[0]), actions[1..]);
    }
  }

  /** At all times a server sees its own coreset as it is now and the others' as offered in the last round:
      swapping its own offer for its present coreset turns everything offered into everything it sees. */
  lemma SeesOwnAndOffered(servers: seq<Server>, actions: seq<Action>, i: nat)
    requires DistinctNames(servers) && i < |servers|
    ensures var c := Run(Cluster(AfterMix(servers), servers), actions);
            && i < |c.servers| == |c.offered|
            && multiset(All(c.servers[i])) + multiset(c.offered[i].mine)
            == multiset(c.servers[i].mine) + Everything(c.offered)
  {
    var start := Cluster(AfterMix(servers), servers);
    RunInv(start, actions);
    SeesNow(Run(start, actions), i);
  }

  lemma SeesNow(c: Cluster, i: nat)
    requires Inv(c) && i < |c.servers|
    ensures multiset(All(c.servers[i])) + multiset(c.offered[i].mine)
         == multiset(c.servers[i].mine) + Everything(c.offered)
  {
    FoldPoints(c.offered);
    FoldHeld(c.offered, i);
    OthersPoints(Fold(c.offered), c.offered[i].name);
  }

  // ----- the code

  lemma OthersAt(kept: Diff, d: Diff, i: nat, name: Name)
    requires i < |d|
    ensures kept + Others(d[i..], name) == kept + (if d[i].name != name then [d[i]] else []) + Others(d[i + 1..], name)
  {
    assert d[i..][1..] == d[i + 1..];
  }

  class Storage {
    const name: Name
    var mine: seq<Point>
    var common: Diff
    var revision: nat

    ghost function State(): Server
      reads this
    {
      Server(name, mine, common, revision)
    }

    constructor (name: Name)
      ensures State() == Server(name, [], [], 0)
    {
      this.name := name;
      mine, common, revision := [], [], 0;
    }

    method GetDiff() returns (d: Diff)
      ensures d == [Offer(State())]
    {
      d := [Entry(name, mine)];
    }

    method PutDiff(diff: Diff)
      modifies this
      ensures State() == Put(old(State()), diff)
    {
      common := [];
      for i := 0 to |diff|
        invariant common + Others(diff[i..], name) == Others(diff, name)
        invariant mine == old(mine) && revision == old(revision)
      {
        OthersAt(common, diff, i, name);
        if diff[i].name != name {
          common := common + [diff[i]];
        }
      }
      revision := revision + 1;
    }

    method GetCommon() returns (points: seq<Point>)
      ensures points == Points(common)
    {
      points := [];
      for i := 0 to |common|
        invariant points == Points(common[..i])
      {
        assert common[..i + 1][..i] == common[..i];
        points := points + common[i].coreset;
      }
      assert common[..|common|] == common;
    }

    method GetAll() returns (points: seq<Point>)
      ensures points == All(State())
    {
      points := mine;
      var others := GetCommon();
      points := points + others;
    }
  }

  ghost function States(storages: seq<Storage>): seq<Server>
    reads storages
  {
    seq(|storages|, i requires 0 <= i < |storages| reads storages => storages[i].State())
  }

  /** The mixer's loops over the storages it was given. */
  method RunMix(storages: seq<Storage>)
    requires forall i, j :: 0 <= i < j < |storages| ==> storages[i] != storages[j]
    modifies storages
    ensures States(storages) == AfterMix(old(States(storages)))
  {
    if storages == [] {
      return;
    }
    ghost var before := States(storages);
    var mixed := storages[0].GetDiff();
    assert mixed == Fold(before[..1]);
    for i := 1 to |storages|
      invariant mixed == Fold(before[..i])
      invariant States(storages) == before
    {
      var diff := storages[i].GetDiff();
      assert before[..i + 1][..i] == before[..i];
      OneEntryMixes(Offer(before[i]), mixed);
      var both := Mix(diff, mixed);
      mixed := both.value;
    }
    assert before[..|storages|] == before;
    for i := 0 to |storages|
      invariant forall j :: 0 <= j < |storages| ==>
                storages[j].State() == if j < i then Put(before[j], mixed) else before[j]
    {
      storages[i].PutDiff(mixed);
    }
  }
}
