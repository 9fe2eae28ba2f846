/** Coresets in levels, carried up like the digits of a counter
    (jubatus/core/clustering/compressive_storage.cpp). */
module CompressiveStorage {
  import opened CarryCounter
  import opened Compressor

  /** `decay(k)` stands for exp(-forgetting_factor * k), `exponential` for the one in get_bicriteria. */
  datatype Config = Config(bucketSize: nat, length: nat, compressed: nat, bicriteria: nat, threshold: real,
                           decay: nat -> real, exponential: (nat, nat, nat) -> real, dist: Distance)
  {
    ghost predicate Valid() {
      && 2 <= length && 1 <= bicriteria <= compressed <= bucketSize
      && (forall k :: decay(k) > 0.0) && (forall b, n, d :: exponential(b, n, d) > 0.0)
    }

    predicate ReachesThreshold(r: nat) { decay(r) < threshold }

    function Fade(p: Point): Point { p.(weight := p.weight * decay(1)) }

    function Forget(ps: seq<Point>): seq<Point> {
      seq(|ps|, i requires 0 <= i < |ps| => Fade(ps[i]))
    }

    /** The size of the chunks carried up from level r. */
    function Chunk(r: nat): nat {
      if r <= 1 then compressed else 2 * (r - 1) * (r - 1) * compressed
    }
  }

  /** The room of d chunks. */
  function Room(d: nat, chunk: nat): nat {
    if d == 0 then 0 else Room(d - 1, chunk) + chunk
  }

  lemma {:induction false} RoomIsProduct(d: nat, chunk: nat)
    ensures Room(d, chunk) == d * chunk
  {
    if d > 0 {
      RoomIsProduct(d - 1, chunk);
      assert (d - 1) * chunk + chunk == d * chunk;
    }
  }

  lemma ForgetNonNegative(c: Config, ps: seq<Point>)
    requires c.Valid() && NonNegative(ps)
    ensures NonNegative(c.Forget(ps))
  {
    forall i | 0 <= i < |ps| ensures ps[i].weight * c.decay(1) >= 0.0 {
      assert c.decay(1) > 0.0;
    }
  }

  /** All these points carry data that was once added. */
  ghost predicate From(ps: seq<Point>, seen: set<nat>) {
    forall i :: 0 <= i < |ps| ==> ps[i].data in seen
  }

  ghost predicate AllFrom(levels: seq<seq<Point>>, seen: set<nat>) {
    forall j :: 0 <= j < |levels| ==> From(levels[j], seen)
  }

  lemma ForgetFrom(c: Config, ps: seq<Point>, seen: set<nat>)
    requires From(ps, seen)
    ensures From(c.Forget(ps), seen)
  {
  }

  lemma SamplesFrom(src: seq<Point>, dst: seq<Point>, seen: set<nat>)
    requires From(src, seen) && AllSampled(src, dst)
    ensures From(dst, seen)
  {
    forall i | 0 <= i < |dst| ensures dst[i].data in seen { assert SampledFrom(src, dst[i]); }
  }

  /** What a carry leaves is made of what was there and what was moved. */
  lemma CarriedFrom(c: Config, before: seq<seq<Point>>, after: seq<seq<Point>>, h: nat, moved: seq<Point>,
      seen: set<nat>)
    requires Carried(c, before, after, h, moved) && AllFrom(before, seen) && From(moved, seen)
    ensures AllFrom(after, seen)
  {
    ForgetFrom(c, moved, seen);
    forall j | 0 <= j < |after| ensures From(after[j], seen) {
      if j > h + 1 {
        assert after[j] == before[j];
      }
    }
  }

  lemma PreparedFrom(c: Config, before: seq<seq<Point>>, r: nat, seen: set<nat>)
    requires r < |before| && AllFrom(before, seen)
    ensures AllFrom(Grown(before, r)[r := c.Forget(before[r])], seen)
  {
    ForgetFrom(c, before[r], seen);
  }

  /** Level r + 1 holds no more than the digit r of the counter allows. */
  ghost predicate Fits(c: Config, levels: seq<seq<Point>>, n: nat, from: nat)
    requires 2 <= c.length
  {
    forall j :: from <= j < |levels| - 1 ==> |levels[j + 1]| <= Room(Digit(n, j, c.length), c.Chunk(j))
  }

  ghost predicate Inv(c: Config, levels: seq<seq<Point>>, status: nat) {
    && c.Valid()
    && |levels| == 1 + Digits(status, c.length)
    && |levels[0]| < c.bucketSize
    && Fits(c, levels, status, 0)
    && (forall j :: 0 <= j < |levels| ==> NonNegative(levels[j]))
  }

  /** All the points, level by level. */
  function Concat(levels: seq<seq<Point>>): seq<Point> {
    if levels == [] then [] else Concat(levels[..|levels| - 1]) + levels[|levels| - 1]
  }

  lemma {:induction false} ConcatSizes(levels: seq<seq<Point>>, r: nat)
    requires r < |levels|
    ensures |levels[r]| <= |Concat(levels)|
    ensures forall j :: 0 <= j < |levels| && j != r && |levels[r]| == |Concat(levels)| ==> levels[j] == []
    decreases |levels|
  {
    var n := |levels| - 1;
    if r < n {
      ConcatSizes(levels[..n], r);
    } else {
      forall j | 0 <= j < n ensures |levels[j]| <= |Concat(levels[..n])| { ConcatSizes(levels[..n], j); }
    }
  }

  /** Level h + 1 with the moved points, discounted; its old points are forgotten from the threshold on. */
  ghost function Landed(c: Config, before: seq<seq<Point>>, h: nat, moved: seq<Point>): seq<Point> {
    (if c.ReachesThreshold(h + 1) || h + 1 >= |before| then [] else before[h + 1]) + c.Forget(moved)
  }

  /** What a carry that stops at h has done: levels 0 to h are empty, one chunk was added to level h + 1 (whose
      old points are forgotten from the threshold on), and the levels above are untouched. */
  ghost predicate Carried(c: Config, before: seq<seq<Point>>, after: seq<seq<Point>>, h: nat, moved: seq<Point>) {
    && |after| == (if |before| < h + 2 then h + 2 else |before|)
    && (forall j :: 0 <= j <= h ==> after[j] == [])
    && (forall j :: h + 1 < j < |after| ==> after[j] == before[j])
    && after[h + 1] == Landed(c, before, h, moved)
    && |moved| <= c.Chunk(h) && NonNegative(moved)
  }

  /** The weight a carry from level r has gathered at level h: every move up discounts it once. */
  ghost function Gathered(c: Config, levels: seq<seq<Point>>, r: nat, h: nat): real
    requires r <= h < |levels|
  {
    Accumulated(c.decay(1), levels, r, h)
  }

  ghost function Accumulated(f: real, levels: seq<seq<Point>>, r: nat, h: nat): real
    requires r <= h < |levels|
  {
    if h == r then Total(levels[r]) else Total(levels[h]) + f * Accumulated(f, levels, r, h - 1)
  }

  lemma {:induction false} GatheredMonotone(c: Config, a: seq<seq<Point>>, r: nat, b: seq<seq<Point>>, q: nat,
      k: nat, h: nat)
    requires c.Valid() && r <= k <= h < |a| && q <= k && h < |b|
    requires Gathered(c, a, r, k) >= Gathered(c, b, q, k)
    requires forall j :: k < j <= h ==> a[j] == b[j]
    ensures Gathered(c, a, r, h) >= Gathered(c, b, q, h)
  {
    if k < h {
      GatheredMonotone(c, a, r, b, q, k, h - 1);
      GatheredStep(c, a, r, b, q, h);
    }
  }

  lemma GatheredFirst(c: Config, levels: seq<seq<Point>>, r: nat)
    requires r + 1 < |levels|
    ensures Gathered(c, levels, r, r + 1) == Total(levels[r + 1]) + c.decay(1) * Total(levels[r])
    ensures Gathered(c, levels, r, r) == Total(levels[r])
  {
    assert Accumulated(c.decay(1), levels, r, r) == Total(levels[r]);
  }

  lemma GatheredStep(c: Config, a: seq<seq<Point>>, r: nat, b: seq<seq<Point>>, q: nat, h: nat)
    requires c.Valid() && r < h < |a| && q < h < |b| && a[h] == b[h]
    requires Gathered(c, a, r, h - 1) >= Gathered(c, b, q, h - 1)
    ensures Gathered(c, a, r, h) >= Gathered(c, b, q, h)
  {
    Discount(c.decay(1), Gathered(c, b, q, h - 1), Gathered(c, a, r, h - 1));
  }

  /** Merging level r, discounted, into level r + 1 carries at least the same weight on. */
  lemma GatheredThrough(c: Config, merged: seq<seq<Point>>, before: seq<seq<Point>>, r: nat, h: nat)
    requires c.Valid() && r + 1 <= h < |before| == |merged|
    requires Total(merged[r + 1]) >= Total(before[r + 1]) + Total(c.Forget(before[r]))
    requires forall j :: r + 1 < j <= h ==> merged[j] == before[j]
    ensures Gathered(c, merged, r + 1, h) >= Gathered(c, before, r, h)
  {
    ForgetTotal(c, before[r]);
    GatheredFirst(c, before, r);
    GatheredMonotone(c, merged, r + 1, before, r, r + 1, h);
  }

  lemma Discount(f: real, x: real, y: real)
    requires f > 0.0 && x <= y
    ensures f * x <= f * y
  {
  }

  lemma {:induction false} ForgetTotal(c: Config, ps: seq<Point>)
    ensures Total(c.Forget(ps)) == c.decay(1) * Total(ps)
  {
    if ps != [] {
      var n := |ps| - 1;
      ForgetTotal(c, ps[..n]);
      ForgetLast(c, ps);
      Spread(c.decay(1), Total(ps[..n]), ps[n].weight);
    }
  }

  lemma ForgetLast(c: Config, ps: seq<Point>)
    requires ps != []
    ensures Total(c.Forget(ps)) == Total(c.Forget(ps[..|ps| - 1])) + c.Fade(ps[|ps| - 1]).weight
  {
    var n := |ps| - 1;
    assert forall i :: 0 <= i < n ==> c.Forget(ps)[i] == c.Fade(ps[i]) == c.Forget(ps[..n])[i];
    assert c.Forget(ps)[..n] == c.Forget(ps[..n]);
  }

  lemma Spread(f: real, x: real, y: real)
    ensures f * (x + y) == f * x + y * f
  {
  }

  function Least(x: nat, y: nat): nat {
    if x < y then x else y
  }

  /** How many points a carry takes out of level h when `first` points leave level r: at every level they are
      merged with what is there and compressed to a chunk. */
  ghost function Taken(c: Config, levels: seq<seq<Point>>, first: nat, r: nat, h: nat): nat
    requires r <= h < |levels|
  {
    if h == r then first else Least(|levels[h]| + Taken(c, levels, first, r, h - 1), c.Chunk(h))
  }

  /** Merging level r into level r + 1 takes the same number of points on. */
  lemma {:induction false} TakenThrough(c: Config, merged: seq<seq<Point>>, before: seq<seq<Point>>, first: nat,
                                        r: nat, h: nat)
    requires r + 1 <= h < |before| == |merged|
    requires |merged[r + 1]| == Least(|before[r + 1]| + first, c.Chunk(r + 1))
    requires forall j :: r + 1 < j <= h ==> merged[j] == before[j]
    ensures Taken(c, merged, |merged[r + 1]|, r + 1, h) == Taken(c, before, first, r, h)
  {
    if h > r + 1 {
      TakenThrough(c, merged, before, first, r, h - 1);
    } else {
      assert Taken(c, before, first, r, r) == first;
    }
  }

  lemma {:induction false} TakenAbove(c: Config, a: seq<seq<Point>>, b: seq<seq<Point>>, first: nat, h: nat)
    requires h < |a| == |b| && forall j :: 0 < j <= h ==> a[j] == b[j]
    ensures Taken(c, a, first, 0, h) == Taken(c, b, first, 0, h)
  {
    if h > 0 {
      TakenAbove(c, a, b, first, h - 1);
    }
  }

  /** The state in which carry_up(r) is called. */
  ghost predicate CarryReady(c: Config, levels: seq<seq<Point>>, status: nat, r: nat) {
    && c.Valid() && 0 < status && r < |levels|
    && Carries(status - 1, r, c.length) && r <= Digits(status - 1, c.length)
    && |levels| == 1 + Digits(status - 1, c.length)
    && (forall j :: 0 <= j < r ==> levels[j] == [])
    && |levels[r]| <= c.Chunk(r)
    && Fits(c, levels, status - 1, r)
    && (forall j :: 0 <= j < |levels| ==> NonNegative(levels[j]))
  }

  /** After a carry the levels fit the incremented counter. */
  lemma CarriedFits(c: Config, before: seq<seq<Point>>, after: seq<seq<Point>>, status: nat, h: nat, moved: seq<Point>)
    requires c.Valid() && 0 < status && Carried(c, before, after, h, moved)
    requires Carries(status - 1, h, c.length) && Digit(status - 1, h, c.length) != c.length - 1
    requires h <= Digits(status - 1, c.length) && |before| == 1 + Digits(status - 1, c.length)
    requires Fits(c, before, status - 1, h)
    requires forall j :: h < j < |before| ==> NonNegative(before[j])
    ensures Inv(c, after, status)
  {
    var n, b := status - 1, c.length;
    ForgetNonNegative(c, moved);
    CarryOn(n, h, b);
    DigitsAfterCarry(n, h, b);
    forall j | 0 <= j < |after| - 1
      ensures |after[j + 1]| <= Room(Digit(status, j, b), c.Chunk(j))
    {
      if j > h {
        SameAbove(n, status, h + 1, j, b);
      }
    }
  }

  function Grown(levels: seq<seq<Point>>, r: nat): (grown: seq<seq<Point>>)
    requires r < |levels|
    ensures r + 1 < |grown|
  {
    if r >= |levels| - 1 then levels + [[]] else levels
  }

  lemma ChunkPositive(c: Config, r: nat)
    requires c.Valid()
    ensures c.Chunk(r) >= 1
  {
    if r > 1 {
      TimesMonotone(2 * (r - 1) * (r - 1), 1, c.compressed);
      TimesMonotone(2 * (r - 1), 1, r - 1);
    }
  }

  /** A full digit is not beyond the counter's last one. */
  lemma FullIsNotNew(n: nat, r: nat, b: nat)
    requires 2 <= b && Digit(n, r, b) == b - 1
    ensures r < Digits(n, b)
  {
    DigitsAreShifts(n, r, b);
    Unique(0, b, 0, 0);
  }

  /** The first level from r on whose digit has room. */
  ghost function StopLevel(c: Config, n: nat, r: nat): nat
    requires 2 <= c.length
  {
    Stop(n, r, c.length)
  }

  lemma StopLevelStep(c: Config, n: nat, r: nat)
    requires 2 <= c.length
    ensures StopLevel(c, n, r) == if Digit(n, r, c.length) != c.length - 1 then r else StopLevel(c, n, r + 1)
  {
  }

  /** What a carry of `first` points out of level r achieves: it stops at the first digit with room and moves up,
      discounted, the points taken on the way, with at least the weight gathered there. */
  ghost predicate CarriedUp(c: Config, before: seq<seq<Point>>, after: seq<seq<Point>>, n: nat, first: nat, r: nat,
                            h: nat, moved: seq<Point>)
    requires 2 <= c.length && r < |before|
  {
    && h == StopLevel(c, n, r) && Carried(c, before, after, h, moved) && r <= h < |before|
    && Total(moved) >= Gathered(c, before, r, h) && |moved| == Taken(c, before, first, r, h)
  }

  /** Level r has been merged, discounted, into level r + 1. */
  ghost predicate MergedInto(c: Config, before: seq<seq<Point>>, merged: seq<seq<Point>>, r: nat)
    requires r + 1 < |before|
  {
    && |merged| == |before| && merged[r] == []
    && (forall j :: r + 1 < j < |merged| ==> merged[j] == before[j])
    && Total(merged[r + 1]) >= Total(before[r + 1]) + Total(c.Forget(before[r]))
    && |merged[r + 1]| == Least(|before[r + 1]| + |before[r]|, c.Chunk(r + 1))
  }

  lemma CarryThrough(c: Config, before: seq<seq<Point>>, merged: seq<seq<Point>>, after: seq<seq<Point>>,
                     n: nat, r: nat, h: nat, moved: seq<Point>)
    requires c.Valid() && r + 1 < |before| && MergedInto(c, before, merged, r)
    requires Digit(n, r, c.length) == c.length - 1
    requires CarriedUp(c, merged, after, n, |merged[r + 1]|, r + 1, h, moved)
    ensures CarriedUp(c, before, after, n, |before[r]|, r, h, moved)
  {
    GatheredThrough(c, merged, before, r, h);
    TakenThrough(c, merged, before, |before[r]|, r, h);
    StopLevelStep(c, n, r);
  }

  lemma PreparedIsReady(c: Config, before: seq<seq<Point>>, status: nat, r: nat)
    requires CarryReady(c, before, status, r) && Digit(status - 1, r, c.length) == c.length - 1
    ensures r + 1 < |before| && Grown(before, r) == before && CarryReady(c, before[r := c.Forget(before[r])], status, r)
  {
    FullIsNotNew(status - 1, r, c.length);
    ForgetNonNegative(c, before[r]);
  }

  lemma MergedIsReady(c: Config, levels: seq<seq<Point>>, status: nat, r: nat, dst: seq<Point>)
    requires CarryReady(c, levels, status, r) && Digit(status - 1, r, c.length) == c.length - 1 && r + 1 < |levels|
    requires |dst| <= c.Chunk(r + 1) && NonNegative(dst)
    ensures CarryReady(c, levels[r := []][r + 1 := dst], status, r + 1)
  {
    CarryOn(status - 1, r, c.length);
  }

  lemma MergedFrom(levels: seq<seq<Point>>, r: nat, dst: seq<Point>, seen: set<nat>)
    requires r + 1 < |levels| && AllFrom(levels, seen) && From(dst, seen)
    ensures AllFrom(levels[r := []][r + 1 := dst], seen)
  {
  }

  /** Level r, discounted, is moved on top of level r + 1, or replaces it from the threshold on. */
  lemma MovedIsCarried(c: Config, before: seq<seq<Point>>, status: nat, r: nat)
    requires CarryReady(c, before, status, r) && Digit(status - 1, r, c.length) != c.length - 1
    ensures var ready := Grown(before, r)[r := c.Forget(before[r])];
            var above := if c.ReachesThreshold(r + 1) then ready[r] else ready[r + 1] + ready[r];
            Carried(c, before, ready[r + 1 := above][r := []], r, before[r])
  {
    var faded := c.Forget(before[r]);
    assert [] + faded == faded;
  }

  lemma MovedUp(c: Config, before: seq<seq<Point>>, after: seq<seq<Point>>, status: nat, r: nat, seen: set<nat>)
    requires CarryReady(c, before, status, r) && Digit(status - 1, r, c.length) != c.length - 1
    requires AllFrom(before, seen) && Carried(c, before, after, r, before[r])
    ensures Inv(c, after, status) && AllFrom(after, seen)
    ensures CarriedUp(c, before, after, status - 1, |before[r]|, r, r, before[r])
  {
    CarriedFits(c, before, after, status, r, before[r]);
    CarriedFrom(c, before, after, r, before[r], seen);
  }

  /** A full first level, compressed, is ready to be carried up. */
  lemma FirstReady(c: Config, levels: seq<seq<Point>>, full: seq<seq<Point>>, status: nat, cr: seq<Point>)
    requires Inv(c, levels, status) && |cr| <= c.compressed && NonNegative(cr)
    requires |full| == |levels| && full[1..] == levels[1..]
    ensures CarryReady(c, full[0 := cr], status + 1, 0)
  {
    var ready := full[0 := cr];
    forall j | 0 < j < |levels| ensures ready[j] == levels[j] {
      assert full[1..][j - 1] == levels[1..][j - 1];
    }
  }

  lemma PointAdded(c: Config, levels: seq<seq<Point>>, status: nat, p: Point, seen: set<nat>)
    requires Inv(c, levels, status) && AllFrom(levels, seen) && p.weight >= 0.0
    ensures var added := levels[0 := levels[0] + [p]];
            && AllFrom(added, seen + {p.data}) && NonNegative(added[0])
            && (|added[0]| < c.bucketSize ==> Inv(c, added, status))
  {
    var added := levels[0 := levels[0] + [p]];
    forall j | 0 <= j < |added| ensures From(added[j], seen + {p.data}) && NonNegative(added[j]) {
      assert From(levels[j], seen);
    }
  }

  lemma FirstFrom(levels: seq<seq<Point>>, cr: seq<Point>, seen: set<nat>)
    requires levels != [] && AllFrom(levels, seen) && From(cr, seen)
    ensures AllFrom(levels[0 := cr], seen)
  {
  }

  lemma FirstCompressed(c: Config, full: seq<seq<Point>>, ready: seq<seq<Point>>, after: seq<seq<Point>>,
                        n: nat, h: nat, moved: seq<Point>)
    requires c.Valid() && 0 < |full| == |ready| && Total(ready[0]) >= Total(full[0])
    requires forall j :: 0 < j < |full| ==> ready[j] == full[j]
    requires CarriedUp(c, ready, after, n, |ready[0]|, 0, h, moved)
    ensures CarriedUp(c, full, after, n, |ready[0]|, 0, h, moved)
  {
    GatheredMonotone(c, ready, 0, full, 0, 0, h);
    TakenAbove(c, ready, full, |ready[0]|, h);
  }

  // ----- the exact sizes

  /** What a level holds when its digit is d: d chunks, or only the last one if its old points are dropped. */
  ghost function Held(drops: bool, unit: nat, d: nat): nat {
    if d == 0 then 0 else if drops then unit else Room(d, unit)
  }

  /** The size of the chunks that leave level r when digit r was full. */
  ghost function Unit(c: Config, r: nat): nat
    requires 2 <= c.length
  {
    if r == 0 then c.compressed
    else Least(Held(c.decay(r) < c.threshold, Unit(c, r - 1), c.length - 1) + Unit(c, r - 1), c.Chunk(r))
  }

  lemma SquaresGrow(x: nat)
    requires x >= 1
    ensures 2 * (x + 1) * (x + 1) <= 4 * (2 * x * x)
  {
    assert 4 * (2 * x * x) - 2 * (x + 1) * (x + 1) == 2 * (3 * x + 1) * (x - 1);
    TimesMonotone(2 * (3 * x + 1), 0, x - 1);
  }

  lemma EnoughMerged(length: nat, k: nat, unit: nat, chunk: nat)
    requires k <= length && chunk <= k * unit
    ensures chunk <= Room(length, unit)
  {
    RoomIsProduct(length, unit);
    TimesMonotone(unit, k, length);
  }

  lemma EnoughHeld(drops: bool, length: nat, k: nat, unit: nat, chunk: nat)
    requires 2 <= length && k <= (if drops then 2 else length) && chunk <= k * unit
    ensures chunk <= Held(drops, unit, length - 1) + unit
  {
    if drops {
      TimesMonotone(unit, k, 2);
    } else {
      EnoughMerged(length, k, unit, chunk);
    }
  }

  /** 2 x^2 times as many. */
  ghost function Squares(x: nat, size: nat): nat {
    2 * x * x * size
  }

  lemma SquaresScale(x: nat, size: nat)
    requires x >= 1
    ensures Squares(x + 1, size) <= 4 * Squares(x, size)
  {
    SquaresGrow(x);
    TimesMonotone(size, 2 * (x + 1) * (x + 1), 4 * (2 * x * x));
  }

  lemma UnitStep(c: Config, r: nat, k: nat, unit: nat, chunk: nat)
    requires 2 <= c.length && 0 < r && unit == Unit(c, r - 1) && chunk == c.Chunk(r)
    requires k <= (if c.ReachesThreshold(r) then 2 else c.length) && chunk <= k * unit
    ensures Unit(c, r) == chunk
  {
    EnoughHeld(c.ReachesThreshold(r), c.length, k, unit, chunk);
  }

  lemma FirstUnits(c: Config)
    requires 2 <= c.length
    ensures Unit(c, 1) == c.compressed && Unit(c, 2) == 2 * c.compressed
  {
    assert Unit(c, 0) == c.compressed;
    UnitStep(c, 1, 1, c.compressed, c.compressed);
    UnitStep(c, 2, 2, c.compressed, 2 * c.compressed);
  }

  /** No level from 1 to r is ever forgotten. */
  ghost predicate KeptUpTo(c: Config, r: nat) {
    forall k :: 1 <= k <= r ==> !c.ReachesThreshold(k)
  }

  /** The chunks that leave the first two levels are of `compressed` points; with at least four buckets to a level
      those that leave a higher level r are of 2 (r - 1)^2 times as many, as far up as no level is forgotten. */
  lemma {:induction false} UnitIsQuadratic(c: Config, r: nat)
    requires 2 <= c.length
    ensures r <= 1 ==> Unit(c, r) == c.compressed
    ensures r == 2 || (r > 2 && 4 <= c.length && KeptUpTo(c, r)) ==> Unit(c, r) == Squares(r - 1, c.compressed)
  {
    FirstUnits(c);
    if r > 2 && 4 <= c.length && KeptUpTo(c, r) {
      UnitIsQuadratic(c, r - 1);
      SquaresScale(r - 2, c.compressed);
      UnitStep(c, r, 4, Squares(r - 2, c.compressed), Squares(r - 1, c.compressed));
    }
  }

  ghost predicate ExactAt(c: Config, levels: seq<seq<Point>>, n: nat, j: nat)
    requires 2 <= c.length && j + 1 < |levels|
  {
    |levels[j + 1]| == Held(c.decay(j + 1) < c.threshold, Unit(c, j), Digit(n, j, c.length))
  }

  /** Each level above the first holds exactly its digit of the counter in chunks, or the last chunk only from the
      forgetting threshold on. */
  ghost predicate Exact(c: Config, levels: seq<seq<Point>>, n: nat)
    requires 2 <= c.length
  {
    forall j :: 0 <= j < |levels| - 1 ==> ExactAt(c, levels, n, j)
  }

  /** Through full digits a carry takes exactly a chunk. */
  lemma {:induction false} TakenIsUnit(c: Config, levels: seq<seq<Point>>, n: nat, h: nat)
    requires 2 <= c.length && h < |levels| && Exact(c, levels, n)
    requires forall j :: 0 <= j < h ==> Digit(n, j, c.length) == c.length - 1
    ensures Taken(c, levels, c.compressed, 0, h) == Unit(c, h)
  {
    if h > 0 {
      TakenIsUnit(c, levels, n, h - 1);
      assert ExactAt(c, levels, n, h - 1);
    }
  }

  lemma LandedSize(c: Config, levels: seq<seq<Point>>, n: nat, h: nat, moved: seq<Point>)
    requires 2 <= c.length && h < |levels| == 1 + Digits(n, c.length) && Exact(c, levels, n)
    requires |moved| == Unit(c, h)
    ensures |Landed(c, levels, h, moved)|
         == Held(c.ReachesThreshold(h + 1), Unit(c, h), Digit(n, h, c.length) + 1)
  {
    LandedCount(c, levels, h, moved);
    HeldGrows(c.ReachesThreshold(h + 1), Unit(c, h), Digit(n, h, c.length));
    if h + 1 < |levels| {
      assert ExactAt(c, levels, n, h);
    } else {
      NewDigit(n, h, c.length);
    }
  }

  lemma NewDigit(n: nat, h: nat, b: nat)
    requires 2 <= b && h == Digits(n, b)
    ensures Digit(n, h, b) == 0
  {
    DigitsAreShifts(n, h, b);
    Unique(0, b, 0, 0);
  }

  lemma HeldGrows(drops: bool, unit: nat, d: nat)
    ensures Held(drops, unit, d + 1) == (if drops then 0 else Held(drops, unit, d)) + unit
  {
  }

  lemma LandedCount(c: Config, levels: seq<seq<Point>>, h: nat, moved: seq<Point>)
    ensures |Landed(c, levels, h, moved)|
         == (if c.ReachesThreshold(h + 1) || h + 1 >= |levels| then 0 else |levels[h + 1]|) + |moved|
  {
  }

  lemma {:induction false} DigitsBelow(n: nat, h: nat, b: nat, j: nat)
    requires 2 <= b && Carries(n, h, b)
    requires j < h && forall i :: 0 <= i < h ==> Digit(n, i, b) == b - 1
    ensures Digit(n + 1, j, b) == 0
  {
    CarriesUpTo(n, j, b, h);
    CarryOn(n, j, b);
  }

  lemma {:induction false} CarriesUpTo(n: nat, j: nat, b: nat, h: nat)
    requires 2 <= b && j <= h && forall i :: 0 <= i < h ==> Digit(n, i, b) == b - 1
    ensures Carries(n, j, b)
  {
    if j > 0 {
      CarriesUpTo(n, j - 1, b, h);
      CarryOn(n, j - 1, b);
    }
  }

  lemma FullBelowStop(c: Config, n: nat, h: nat)
    requires 2 <= c.length && h == StopLevel(c, n, 0)
    ensures Digit(n, h, c.length) != c.length - 1 && Carries(n, h, c.length)
    ensures forall j :: 0 <= j < h ==> Digit(n, j, c.length) == c.length - 1
  {
    StopIsFirst(n, 0, c.length, h);
    forall j: nat | j < h ensures Digit(n, j, c.length) == c.length - 1 { StopIsFirst(n, 0, c.length, j); }
    CarriesUpTo(n, h, c.length, h);
  }

  lemma ExactAfter(c: Config, levels: seq<seq<Point>>, after: seq<seq<Point>>, n: nat, h: nat, moved: seq<Point>,
                   j: nat)
    requires c.Valid() && |levels| == 1 + Digits(n, c.length) && h < |levels| && Exact(c, levels, n)
    requires h == StopLevel(c, n, 0) && Carried(c, levels, after, h, moved)
    requires |moved| == Taken(c, levels, c.compressed, 0, h)
    requires j + 1 < |after|
    ensures ExactAt(c, after, n + 1, j)
  {
    FullBelowStop(c, n, h);
    CarryOn(n, h, c.length);
    if j < h {
      DigitsBelow(n, h, c.length, j);
    } else if j == h {
      TakenIsUnit(c, levels, n, h);
      LandedSize(c, levels, n, h, moved);
    } else {
      SameAbove(n, n + 1, h + 1, j, c.length);
      assert ExactAt(c, levels, n, j);
    }
  }

  /** The exact sizes survive a carry. */
  lemma ExactCarry(c: Config, levels: seq<seq<Point>>, full: seq<seq<Point>>, after: seq<seq<Point>>, n: nat, h: nat,
                   moved: seq<Point>)
    requires Inv(c, levels, n) && Exact(c, levels, n) && |full| == |levels| && full[1..] == levels[1..]
    requires CarriedUp(c, full, after, n, c.compressed, 0, h, moved)
    ensures Exact(c, after, n + 1)
  {
    forall j | 0 < j < |levels| ensures full[j] == levels[j] {
      assert full[1..][j - 1] == levels[1..][j - 1];
    }
    TakenAbove(c, full, levels, c.compressed, h);
    assert Landed(c, full, h, moved) == Landed(c, levels, h, moved);
    assert Carried(c, levels, after, h, moved);
    var next := n + 1;
    forall j | 0 <= j < |after| - 1 ensures ExactAt(c, after, next, j) {
      ExactAfter(c, levels, after, n, h, moved, j);
    }
  }

  lemma ExactWithPoint(c: Config, levels: seq<seq<Point>>, n: nat, p: Point)
    requires 2 <= c.length && levels != [] && Exact(c, levels, n)
    ensures Exact(c, levels[0 := levels[0] + [p]], n)
  {
    var added := levels[0 := levels[0] + [p]];
    forall j | 0 <= j < |added| - 1 ensures ExactAt(c, added, n, j) {
      assert ExactAt(c, levels, n, j);
    }
  }

  /** Level 1 holds the last digit of the counter in buckets of `compressed` points, or at most one such bucket if
      it is forgotten. */
  lemma FirstLevelExact(c: Config, levels: seq<seq<Point>>, n: nat)
    requires 2 <= c.length && Exact(c, levels, n) && |levels| == 1 + Digits(n, c.length) && n > 0
    ensures var d := Digit(n, 0, c.length);
            1 < |levels| && |levels[1]| == (if c.decay(1) < c.threshold && d > 1 then 1 else d) * c.compressed
  {
    assert ExactAt(c, levels, n, 0);
    RoomIsProduct(Digit(n, 0, c.length), c.compressed);
  }

  // ----- without forgetting no weight is lost

  /** No discount, and no level so old that it is dropped. */
  ghost predicate Remembers(c: Config) {
    c.decay(1) == 1.0 && forall r :: !c.ReachesThreshold(r)
  }

  /** The weight of the first k levels. */
  ghost function LevelSum(levels: seq<seq<Point>>, k: nat): real
    requires k <= |levels|
  {
    if k == 0 then 0.0 else LevelSum(levels, k - 1) + Total(levels[k - 1])
  }

  lemma {:induction false} LevelSumIsTotal(levels: seq<seq<Point>>, k: nat)
    requires k <= |levels|
    ensures LevelSum(levels, k) == Total(Concat(levels[..k]))
  {
    if k > 0 {
      LevelSumIsTotal(levels, k - 1);
      assert levels[..k][..k - 1] == levels[..k - 1];
      TotalAppend(Concat(levels[..k - 1]), levels[k - 1]);
    }
  }

  lemma {:induction false} AccumulatedIsSum(levels: seq<seq<Point>>, h: nat)
    requires h < |levels|
    ensures Accumulated(1.0, levels, 0, h) == LevelSum(levels, h + 1)
  {
    if h > 0 {
      AccumulatedIsSum(levels, h - 1);
    } else {
      assert LevelSum(levels, 0) == 0.0;
    }
  }

  lemma {:induction false} EmptySum(levels: seq<seq<Point>>, k: nat)
    requires k <= |levels| && forall j :: 0 <= j < k ==> levels[j] == []
    ensures LevelSum(levels, k) == 0.0
  {
    if k > 0 {
      EmptySum(levels, k - 1);
    }
  }

  lemma {:induction false} SumsAbove(before: seq<seq<Point>>, after: seq<seq<Point>>, from: nat, k: nat)
    requires from <= k <= |before| && k <= |after| && LevelSum(after, from) >= LevelSum(before, from)
    requires forall j :: from <= j < k ==> after[j] == before[j]
    ensures LevelSum(after, k) >= LevelSum(before, k)
  {
    if from < k {
      SumsAbove(before, after, from, k - 1);
    }
  }

  /** What lands is discounted once more, on top of what the level held unless that is forgotten. */
  lemma LandedTotal(c: Config, before: seq<seq<Point>>, h: nat, moved: seq<Point>)
    ensures Total(Landed(c, before, h, moved))
         == (if c.ReachesThreshold(h + 1) || h + 1 >= |before| then 0.0 else Total(before[h + 1]))
            + c.decay(1) * Total(moved)
  {
    ForgetTotal(c, moved);
    TotalAppend(if c.ReachesThreshold(h + 1) || h + 1 >= |before| then [] else before[h + 1], c.Forget(moved));
  }

  /** Up to the level where a carry stops, and with the one above, nothing is lost. */
  lemma CarrySum(c: Config, before: seq<seq<Point>>, after: seq<seq<Point>>, n: nat, first: nat, h: nat,
                 moved: seq<Point>)
    requires c.Valid() && Remembers(c) && before != [] && CarriedUp(c, before, after, n, first, 0, h, moved)
    ensures var high := if h + 1 < |before| then h + 2 else h + 1;
            LevelSum(after, h + 2) >= LevelSum(before, high)
  {
    AccumulatedIsSum(before, h);
    LandedTotal(c, before, h, moved);
    EmptySum(after, h + 1);
    assert LevelSum(after, h + 2) == LevelSum(after, h + 1) + Total(after[h + 1]);
  }

  /** Without forgetting a carry leaves at least as much weight in all levels together. */
  lemma CarryKeepsTotal(c: Config, before: seq<seq<Point>>, after: seq<seq<Point>>, n: nat, first: nat, h: nat,
                 moved: seq<Point>)
    requires c.Valid() && Remembers(c) && before != [] && CarriedUp(c, before, after, n, first, 0, h, moved)
    ensures Total(Concat(after)) >= Total(Concat(before))
  {
    CarrySum(c, before, after, n, first, h, moved);
    if h + 1 < |before| {
      SumsAbove(before, after, h + 2, |before|);
    }
    WholeSum(before);
    WholeSum(after);
  }

  lemma WholeSum(levels: seq<seq<Point>>)
    ensures LevelSum(levels, |levels|) == Total(Concat(levels))
  {
    LevelSumIsTotal(levels, |levels|);
    assert levels[..|levels|] == levels;
  }

  lemma {:induction false} SumWithPoint(levels: seq<seq<Point>>, p: Point, k: nat)
    requires 0 < k <= |levels|
    ensures LevelSum(levels[0 := levels[0] + [p]], k) == LevelSum(levels, k) + p.weight
  {
    var added := levels[0 := levels[0] + [p]];
    if k == 1 {
      assert LevelSum(added, 0) == 0.0 == LevelSum(levels, 0);
      assert (levels[0] + [p])[..|levels[0]|] == levels[0];
    } else {
      SumWithPoint(levels, p, k - 1);
    }
  }

  /** Adding a point adds its weight, or more where a compression has clamped negative weights. */
  lemma AddedTotal(c: Config, levels: seq<seq<Point>>, after: seq<seq<Point>>, p: Point, n: nat, first: nat,
                   h: nat, moved: seq<Point>)
    requires c.Valid() && Remembers(c) && levels != []
    requires var added := levels[0 := levels[0] + [p]];
             after == added || CarriedUp(c, added, after, n, first, 0, h, moved)
    ensures Total(Concat(after)) >= Total(Concat(levels)) + p.weight
  {
    var added := levels[0 := levels[0] + [p]];
    SumWithPoint(levels, p, |levels|);
    WholeSum(levels);
    WholeSum(added);
    if after != added {
      CarryKeepsTotal(c, added, after, n, first, h, moved);
    }
  }

  class CompressiveStorage {
    const c: Config
    var mine: seq<seq<Point>>
    var status: nat
    ghost var seen: set<nat>  // the data of all points added so far

    ghost predicate Fitting()
      reads this
    {
      Inv(c, mine, status) && AllFrom(mine, seen)
    }

    ghost predicate Valid()
      reads this
    {
      Fitting() && Exact(c, mine, status)
    }

    constructor (c: Config)
      requires c.Valid()
      ensures Valid() && this.c == c && mine == [[]] && status == 0 && seen == {}
    {
      this.c := c;
      mine, status, seen := [[]], 0, {};
    }

    method GetMine() returns (all: seq<Point>)
      ensures all == Concat(mine)
    {
      all := [];
      for i := 0 to |mine|
        invariant all == Concat(mine[..i])
      {
        assert mine[..i + 1][..i] == mine[..i];
        all := all + mine[i];
      }
      assert mine[..|mine|] == mine;
    }

    method CompressTo(src: seq<Point>, dstsize: nat) returns (dst: seq<Point>)
      requires c.Valid() && NonNegative(src) && 1 <= dstsize && From(src, seen)
      ensures |dst| == Least(|src|, dstsize) && NonNegative(dst) && Total(dst) >= Total(src) && From(dst, seen)
    {
      ghost var unclamped, how;
      dst, unclamped, how := Compress(src, c.bicriteria, dstsize, c.exponential(c.bicriteria, |src|, dstsize), c.dist);
      SamplesFrom(src, dst, seen);
    }

    /** The branch for a next level that still has room. */
    method MoveUp(r: nat, ghost before: seq<seq<Point>>)
      requires CarryReady(c, before, status, r) && Digit(status - 1, r, c.length) != c.length - 1
      requires mine == Grown(before, r)[r := c.Forget(before[r])] && AllFrom(before, seen)
      modifies this`mine
      ensures Fitting() && CarriedUp(c, before, mine, status - 1, |before[r]|, r, r, before[r])
    {
      var all := GetMine();
      ConcatSizes(mine, r);
      MovedIsCarried(c, before, status, r);
      if !c.ReachesThreshold(r + 1) || |mine[r]| == |all| {
        assert c.ReachesThreshold(r + 1) ==> mine[r + 1] + mine[r] == mine[r];
        mine := mine[r + 1 := mine[r + 1] + mine[r]][r := []];
      } else {
        mine := mine[r + 1 := mine[r]][r := []];
      }
      MovedUp(c, before, mine, status, r, seen);
    }

    /** The branch for a full next level: compresses it together with level r. */
    method MergeUp(r: nat, ghost before: seq<seq<Point>>)
      requires CarryReady(c, mine, status, r) && Digit(status - 1, r, c.length) == c.length - 1 && r + 1 < |before|
      requires mine == before[r := c.Forget(before[r])] && AllFrom(mine, seen)
      modifies this`mine
      ensures CarryReady(c, mine, status, r + 1) && AllFrom(mine, seen) && MergedInto(c, before, mine, r)
    {
      ghost var ready := mine;
      var cr, crr := mine[r], mine[r + 1];
      mine := mine[r := []][r + 1 := []];
      TotalAppend(crr, cr);
      crr := crr + cr;
      var dstsize := if r == 0 then c.compressed else 2 * r * r * c.compressed;
      assert dstsize == c.Chunk(r + 1);
      ChunkPositive(c, r + 1);
      var dst := CompressTo(crr, dstsize);
      mine := mine[r + 1 := dst];
      assert mine == ready[r := []][r + 1 := dst];
      MergedIsReady(c, ready, status, r, dst);
      MergedFrom(ready, r, dst, seen);
    }

    /** The start of carry_up: opens a new last level if needed and discounts level r. */
    method Prepare(r: nat)
      requires c.Valid() && r < |mine| && NonNegative(mine[r])
      modifies this`mine
      ensures mine == Grown(old(mine), r)[r := c.Forget(old(mine)[r])] && NonNegative(mine[r])
    {
      if r >= |mine| - 1 {
        mine := mine + [[]];
      }
      ForgetNonNegative(c, mine[r]);
      mine := mine[r := c.Forget(mine[r])];
    }

    /** Moves level r up by one, recursively while the next level is full; stops at level h. */
    method CarryUp(r: nat) returns (ghost h: nat, ghost moved: seq<Point>)
      requires CarryReady(c, mine, status, r) && AllFrom(mine, seen)
      modifies this`mine
      ensures Fitting() && CarriedUp(c, old(mine), mine, status - 1, |old(mine)[r]|, r, h, moved)
      decreases Shift(status - 1, r, c.length), 1
    {
      ghost var before := mine;
      PreparedFrom(c, before, r, seen);
      Prepare(r);
      var digit := DigitOf(status - 1, r, c.length);
      if digit != c.length - 1 {
        MoveUp(r, before);
        h, moved := r, before[r];
      } else {
        PreparedIsReady(c, before, status, r);
        h, moved := MergeAndCarry(r, before);
      }
    }

    /** Level r is merged into the full level above it, which is then carried up. */
    method MergeAndCarry(r: nat, ghost before: seq<seq<Point>>) returns (ghost h: nat, ghost moved: seq<Point>)
      requires CarryReady(c, mine, status, r) && Digit(status - 1, r, c.length) == c.length - 1 && r + 1 < |before|
      requires mine == before[r := c.Forget(before[r])] && AllFrom(mine, seen)
      modifies this`mine
      ensures Fitting() && CarriedUp(c, before, mine, status - 1, |before[r]|, r, h, moved)
      decreases Shift(status - 1, r, c.length), 0
    {
      FullDecreases(status - 1, r, c.length);
      MergeUp(r, before);
      ghost var merged := mine;
      h, moved := CarryUp(r + 1);
      CarryThrough(c, before, merged, mine, status - 1, r, h, moved);
    }

    /** Compresses the full first level and carries it up, which counts the status up by one. */
    method Overflow(ghost levels: seq<seq<Point>>) returns (ghost h: nat, ghost moved: seq<Point>)
      requires Inv(c, levels, status) && |mine| == |levels| && mine[1..] == levels[1..]
      requires NonNegative(mine[0]) && AllFrom(mine, seen)
      modifies this`mine, this`status
      ensures Fitting() && status == old(status) + 1
      ensures CarriedUp(c, old(mine), mine, old(status), Least(|old(mine)[0]|, c.compressed), 0, h, moved)
    {
      ghost var full := mine;
      var cr := CompressTo(mine[0], c.compressed);
      FirstReady(c, levels, full, status, cr);
      FirstFrom(full, cr, seen);
      mine := mine[0 := cr];
      status := status + 1;
      ghost var ready := mine;
      h, moved := CarryUp(0);
      FirstCompressed(c, full, ready, mine, status - 1, h, moved);
    }

    /** Adds a point; a full first level is compressed to `compressed` points and carried up. Every
        level holds exactly its digit of the counter in chunks, or one of them if it is forgotten. */
    method Add(p: Point) returns (ghost h: nat, ghost moved: seq<Point>)
      requires Valid() && p.weight >= 0.0
      modifies this
      ensures Valid() && seen == old(seen) + {p.data}
      ensures |old(mine[0])| + 1 < c.bucketSize ==> status == old(status) && mine == old(mine)[0 := old(mine[0]) + [p]]
      ensures |old(mine[0])| + 1 >= c.bucketSize ==>
        status == old(status) + 1
        && CarriedUp(c, old(mine)[0 := old(mine[0]) + [p]], mine, old(status), c.compressed, 0, h, moved)
      ensures status > 0 ==> 1 < |mine| && var d := Digit(status, 0, c.length);
                             |mine[1]| == (if c.decay(1) < c.threshold && d > 1 then 1 else d) * c.compressed
    {
      ghost var levels, n := mine, status;
      PointAdded(c, mine, status, p, seen);
      h, moved, seen := 0, [], seen + {p.data};
      mine := mine[0 := mine[0] + [p]];
      if |mine[0]| >= c.bucketSize {
        ghost var full := mine;
        h, moved := Overflow(levels);
        ExactCarry(c, levels, full, mine, n, h, moved);
      } else {
        ExactWithPoint(c, levels, n, p);
      }
      if status > 0 {
        FirstLevelExact(c, mine, status);
      }
    }
  }

  ghost function Stored(s: CompressiveStorage): real
    reads s
  {
    Total(Concat(s.mine))
  }

  /** clustering::push on any points: without forgetting, the stored total never falls below everything added. */
  method Push(s: CompressiveStorage, points: seq<Point>)
    requires s.Valid() && NonNegative(points)
    modifies s
    ensures s.Valid() && From(points, s.seen) && old(s.seen) <= s.seen
    ensures Remembers(s.c) ==> Stored(s) >= old(Stored(s)) + Total(points)
  {
    assert points[..0] == [];
    for i := 0 to |points|
      invariant s.Valid() && old(s.seen) <= s.seen && From(points[..i], s.seen)
      invariant Remembers(s.c) ==> Stored(s) >= old(Stored(s)) + Total(points[..i])
    {
      ghost var levels, n := s.mine, s.status;
      var h, moved := s.Add(points[i]);
      if Remembers(s.c) {
        AddedTotal(s.c, levels, s.mine, points[i], n, s.c.compressed, h, moved);
      }
      TotalNext(points, i);
    }
    assert points[..|points|] == points;
  }
}
