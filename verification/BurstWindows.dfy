/** Position arithmetic of burst windows (jubatus/core/burst/input_window.hpp,
    window_intersection.hpp). Positions are reals. */
module BurstWindows {
  import opened Options

  function Max(a: int, b: int): int { if a < b then b else a }

  /** A window of equally long batches starting at `start`. */
  datatype Window<B> = Window(batches: seq<B>, start: real, interval: real) {
    function EndPos(): real { start + interval * |batches| as real }

    predicate Contains(pos: real) { start <= pos < EndPos() }

    /** The index of a position as if the window went on in both directions. */
    function RawIndex(pos: real): int
      requires interval > 0.0
    {
      ((pos - start) / interval).Floor
    }

    /** The index of a position, None when it is out of range. */
    function GetIndex(pos: real): Option<nat>
      requires interval > 0.0
    {
      var i := RawIndex(pos);
      if i < 0 || |batches| <= i then None else Some(i)
    }

    function Boundary(i: int): real { start + i as real * interval }

    function IndexForBoundary(pos: real): Option<int>
      requires interval > 0.0
    {
      var candidate := RawIndex(pos + interval / 2.0);
      if Near(pos, Boundary(candidate), interval) then Some(candidate) else None
    }

    function AdjustIndex(i: int): nat {
      if i < 0 then 0 else if i > |batches| then |batches| else i
    }

    predicate SameInterval(other: real)
      requires interval > 0.0
    {
      var n := Max(|batches|, 1) as real;
      Near(n * other, n * interval, interval)
    }
  }

  function Abs(x: real): real { if x < 0.0 then -x else x }

  /** Positions closer than one percent of a batch are taken for the same. */
  predicate Near(p: real, q: real, interval: real)
    requires interval > 0.0
  {
    Abs(q - p) / interval < 0.01
  }

  /** The index range of w1 that w2 covers; None for windows that do not line up. */
  function GetIntersection<A, B>(w1: Window<A>, w2: Window<B>): Option<(nat, nat)>
    requires w1.interval > 0.0
  {
    var begin, end := w1.IndexForBoundary(w2.start), w1.IndexForBoundary(w2.EndPos());
    if begin == None || end == None || !w1.SameInterval(w2.interval) then None
    else Some((w1.AdjustIndex(begin.value), w1.AdjustIndex(end.value)))
  }

  lemma Divided(x: real, y: real, bound: real)
    requires y > 0.0
    ensures x / y < bound <==> x < bound * y
    ensures bound <= x / y <==> bound * y <= x
  {
    var q := x / y;
    assert q * y == x;
    if q < bound {
      assert (bound - q) * y > 0.0;
    } else {
      assert (q - bound) * y >= 0.0;
    }
  }

  lemma NearIff(p: real, q: real, interval: real)
    requires interval > 0.0
    ensures Near(p, q, interval) <==> Close(p, q, interval)
  {
    Divided(Abs(q - p), interval, 0.01);
  }

  lemma FloorIs(x: real, y: real, k: int, low: real)
    requires y > 0.0 && low == k as real * y && low <= x < low + y
    ensures (x / y).Floor == k
  {
    Divided(x, y, k as real);
    Divided(x, y, k as real + 1.0);
    assert (k as real + 1.0) * y == low + y;
  }

  ghost predicate Close(p: real, q: real, interval: real) {
    -interval < 100.0 * (p - q) < interval
  }

  lemma CandidateIs<B>(w: Window<B>, pos: real, k: int)
    requires w.interval > 0.0 && Close(pos, w.Boundary(k), w.interval)
    ensures w.RawIndex(pos + w.interval / 2.0) == k
  {
    FloorIs(pos + w.interval / 2.0 - w.start, w.interval, k, k as real * w.interval);
  }

  /** A position is taken for the k-th boundary of a window if and only if it is closer to it than one percent of
      a batch. */
  lemma BoundaryIff<B>(w: Window<B>, pos: real, k: int)
    requires w.interval > 0.0
    ensures w.IndexForBoundary(pos) == Some(k) <==> Close(pos, w.Boundary(k), w.interval)
  {
    var candidate := w.RawIndex(pos + w.interval / 2.0);
    NearIff(pos, w.Boundary(candidate), w.interval);
    if Close(pos, w.Boundary(k), w.interval) {
      CandidateIs(w, pos, k);
    }
  }

  // ----- windows on the grid of multiples of one interval

  /** The grid batch a position falls into. */
  function Slot(pos: real, interval: real): int
    requires interval > 0.0
  {
    (pos / interval).Floor
  }

  /** The k-th multiple of an interval, by repeated addition. */
  ghost function GridPoint(k: int, interval: real): real
    decreases if k < 0 then -k else k
  {
    if k == 0 then 0.0
    else if k > 0 then GridPoint(k - 1, interval) + interval
    else GridPoint(k + 1, interval) - interval
  }

  lemma {:induction false} GridPointIsProduct(k: int, interval: real)
    ensures GridPoint(k, interval) == k as real * interval
    decreases if k < 0 then -k else k
  {
    if k > 0 {
      GridPointIsProduct(k - 1, interval);
      assert (k - 1) as real * interval + interval == k as real * interval;
    } else if k < 0 {
      GridPointIsProduct(k + 1, interval);
      assert (k + 1) as real * interval - interval == k as real * interval;
    }
  }

  lemma {:induction false} GridPointSum(k: int, m: int, interval: real)
    ensures GridPoint(k, interval) + GridPoint(m, interval) == GridPoint(k + m, interval)
    decreases if m < 0 then -m else m
  {
    if m > 0 {
      GridPointSum(k, m - 1, interval);
      assert GridPoint(k + m, interval) == GridPoint(k + m - 1, interval) + interval;
    } else if m < 0 {
      GridPointSum(k, m + 1, interval);
      assert GridPoint(k + m, interval) == GridPoint(k + m + 1, interval) - interval;
    }
  }

  /** The grid point n batches on; the out-parameter names the product. */
  lemma GridDifference(k: int, n: int, interval: real) returns (step: real)
    ensures step == n as real * interval && GridPoint(k, interval) + step == GridPoint(k + n, interval)
  {
    step := GridPoint(n, interval);
    GridPointIsProduct(n, interval);
    GridPointSum(k, n, interval);
  }

  ghost predicate OnGrid<B>(w: Window<B>, interval: real, k: int) {
    w.interval == interval && w.start == GridPoint(k, interval)
  }

  lemma Quotient(x: real, q: real, interval: real)
    requires interval > 0.0 && x == q * interval
    ensures x / interval == q
  {
  }

  lemma DivideShifted(x: real, k: int, interval: real)
    requires interval > 0.0
    ensures (x - k as real * interval) / interval == x / interval - k as real
  {
    var q := x / interval;
    assert x == q * interval;
    assert x - k as real * interval == (q - k as real) * interval;
    Quotient(x - k as real * interval, q - k as real, interval);
  }

  lemma MultiplesOrder(x: real, y: real, interval: real)
    requires interval > 0.0
    ensures x * interval <= y * interval <==> x <= y
  {
    if x <= y {
      assert (y - x) * interval >= 0.0;
    } else {
      assert (x - y) * interval > 0.0;
    }
  }

  lemma TimesQuotient(x: real, interval: real) returns (q: real)
    requires interval > 0.0
    ensures q == x / interval && q * interval == x
  {
    q := x / interval;
  }

  lemma SlotRange(pos: real, interval: real, k: int)
    requires interval > 0.0
    ensures GridPoint(k, interval) <= pos <==> k <= Slot(pos, interval)
  {
    GridPointIsProduct(k, interval);
    var q := TimesQuotient(pos, interval);
    MultiplesOrder(k as real, q, interval);
  }

  lemma Commute(a: real, b: real)
    ensures a * b == b * a
  {
  }

  lemma EndAt<B>(w: Window<B>, step: real)
    requires step == w.interval * |w.batches| as real
    ensures w.EndPos() == w.start + step
  {
  }

  lemma GridEnd<B>(w: Window<B>, interval: real, k: int)
    requires OnGrid(w, interval, k)
    ensures w.EndPos() == GridPoint(k + |w.batches|, interval)
  {
    var n := |w.batches|;
    var step := GridDifference(k, n, w.interval);
    Commute(w.interval, n as real);
    EndAt(w, step);
  }

  lemma GridRawIndex<B>(w: Window<B>, interval: real, k: int, pos: real)
    requires interval > 0.0 && OnGrid(w, interval, k)
    ensures w.RawIndex(pos) == Slot(pos, interval) - k
  {
    GridPointIsProduct(k, interval);
    DivideShifted(pos, k, interval);
  }

  /** On the grid, indices are differences of grid batches, and the index test agrees with the position test. */
  lemma GridIndex<B>(w: Window<B>, interval: real, k: int, pos: real)
    requires interval > 0.0 && OnGrid(w, interval, k)
    ensures w.RawIndex(pos) == Slot(pos, interval) - k
    ensures w.GetIndex(pos).Some? <==> w.Contains(pos)
    ensures w.EndPos() <= pos <==> k + |w.batches| <= Slot(pos, interval)
  {
    GridRawIndex(w, interval, k, pos);
    GridEnd(w, interval, k);
    SlotRange(pos, interval, k);
    SlotRange(pos, interval, k + |w.batches|);
  }

  lemma SlotOfGridPoint(k: int, interval: real)
    requires interval > 0.0
    ensures Slot(GridPoint(k, interval), interval) == k
    ensures Slot(GridPoint(k, interval) + interval / 2.0, interval) == k
  {
    GridPointIsProduct(k, interval);
    Quotient(k as real * interval, k as real, interval);
    var x, q := k as real * interval + interval / 2.0, k as real + 0.5;
    assert x == q * interval;
    Quotient(x, q, interval);
    assert q.Floor == k;
  }

  lemma BoundaryHit<B>(w: Window<B>, pos: real, candidate: int, step: real)
    requires w.interval > 0.0 && w.RawIndex(pos + w.interval / 2.0) == candidate
    requires step == candidate as real * w.interval && w.start + step == pos
    ensures w.IndexForBoundary(pos) == Some(candidate)
  {
    NearItself(pos, w.interval);
  }

  lemma BoundaryAhead<B>(w: Window<B>, k: int, n: int)
    requires w.interval > 0.0 && w.start == GridPoint(k, w.interval)
    requires w.RawIndex(GridPoint(k + n, w.interval) + w.interval / 2.0) == n
    ensures w.IndexForBoundary(GridPoint(k + n, w.interval)) == Some(n)
  {
    var step := GridDifference(k, n, w.interval);
    BoundaryHit(w, GridPoint(k + n, w.interval), n, step);
  }

  lemma GridBoundary<B>(w: Window<B>, interval: real, k: int, b: int)
    requires interval > 0.0 && OnGrid(w, interval, k)
    ensures w.IndexForBoundary(GridPoint(b, interval)) == Some(b - k)
  {
    HalfwayIndex(w, interval, k, b);
    BoundaryAhead(w, k, b - k);
  }

  lemma HalfwayIndex<B>(w: Window<B>, interval: real, k: int, b: int)
    requires interval > 0.0 && OnGrid(w, interval, k)
    ensures w.RawIndex(GridPoint(b, interval) + interval / 2.0) == b - k
  {
    SlotOfGridPoint(b, interval);
    GridRawIndex(w, interval, k, GridPoint(b, interval) + interval / 2.0);
  }

  lemma NearItself(pos: real, interval: real)
    requires interval > 0.0
    ensures Near(pos, pos, interval)
  {
    assert Abs(pos - pos) == 0.0;
    assert 0.0 / interval == 0.0;
  }

  lemma SameIntervalReflexive<B>(w: Window<B>)
    requires w.interval > 0.0
    ensures w.SameInterval(w.interval)
  {
    NearItself(Max(|w.batches|, 1) as real * w.interval, w.interval);
  }

  /** On the grid the one percent tolerance collapses to equality: the intersection is exactly the
      clipped range of common batches. */
  lemma GridIntersection<A, B>(w1: Window<A>, w2: Window<B>, interval: real, k1: int, k2: int)
    requires interval > 0.0 && OnGrid(w1, interval, k1) && OnGrid(w2, interval, k2)
    ensures GetIntersection(w1, w2)
         == Some((w1.AdjustIndex(k2 - k1), w1.AdjustIndex(k2 + |w2.batches| - k1)))
  {
    SameIntervalReflexive(w1);
    GridBoundary(w1, interval, k1, k2);
    GridEnd(w2, interval, k2);
    var end := k2 + |w2.batches|;
    GridBoundary(w1, interval, k1, end);
  }
}
