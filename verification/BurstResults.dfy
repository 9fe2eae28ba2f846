/** Results of burst detection: the weights of the previous window's result are handed on to the
    next window's search (jubatus/core/burst/burst_result.cpp, aggregator.cpp flush_results). */
module BurstResults {
  import opened Options
  import opened BurstWindows
  import opened BurstEngine
  import opened BurstLikelihood
  import BurstAggregator
  import BurstGrid

  type Input = Window<BurstGrid.Batch>

  datatype ResultBatch = ResultBatch(d: nat, r: nat, weight: Ext)

  type Result = Window<ResultBatch>

  const UNCALCULATED := Fin(-1.0)

  function DVector(w: Input): seq<nat> { seq(|w.batches|, i requires 0 <= i < |w.batches| => w.batches[i].d) }

  function RVector(w: Input): seq<nat> { seq(|w.batches|, i requires 0 <= i < |w.batches| => w.batches[i].r) }

  function Weights(w: Result): seq<Ext> { seq(|w.batches|, i requires 0 <= i < |w.batches| => w.batches[i].weight) }

  /** Every weight has been calculated. */
  ghost predicate Calculated(w: Result) {
    forall i :: 0 <= i < |w.batches| ==> !Negative(w.batches[i].weight)
  }

  /** The range of the previous result's batches that may be reused. */
  function ReuseRange(input: Input, prev: Option<Result>): (nat, nat)
    requires prev.Some? ==> prev.value.interval > 0.0
  {
    if prev.None? || prev.value.start > input.start then (0, 0)
    else match GetIntersection(prev.value, input)
      case None => (0, 0)
      case Some((first, second)) => if first <= second then (first, second) else (0, 0)
  }

  function ReuseCount(input: Input, prev: Option<Result>, maxReuse: nat): nat
    requires prev.Some? ==> prev.value.interval > 0.0
  {
    var (first, second) := ReuseRange(input, prev);
    var most := if maxReuse < |input.batches| then maxReuse else |input.batches|;
    if second - first < most then Max(second - first, 0) else most
  }

  lemma ReuseRangeInside(input: Input, prev: Option<Result>)
    requires prev.Some? ==> prev.value.interval > 0.0
    ensures var (first, second) := ReuseRange(input, prev);
            first <= second && (prev.Some? ==> second <= |prev.value.batches|) && (prev.None? ==> second == 0)
  {
  }

  /** The weight vector handed to the search: reused weights, then -1 for every other batch. */
  ghost predicate IsHandedOn(input: Input, prev: Option<Result>, maxReuse: nat, ws: seq<Ext>)
    requires prev.Some? ==> prev.value.interval > 0.0
  {
    ReuseRangeInside(input, prev);
    var k, first := ReuseCount(input, prev, maxReuse), ReuseRange(input, prev).0;
    && |ws| == |input.batches|
    && (forall i :: 0 <= i < k ==> ws[i] == prev.value.batches[first + i].weight)
    && (forall i :: k <= i < |ws| ==> ws[i] == UNCALCULATED)
  }

  /** Batch i of a window from grid batch k on is a batch of the previous result, which starts no later, and is
      within the limit on reuse. */
  ghost predicate Reusable(prev: Option<Result>, maxReuse: nat, k: int, kPrev: int, i: nat) {
    prev.Some? && kPrev <= k && i < maxReuse && k + i - kPrev < |prev.value.batches|
  }

  /** On the grid exactly the reusable batches are reused, each from its place in the previous result. */
  lemma ReuseOnGrid(input: Input, prev: Option<Result>, maxReuse: nat, interval: real, k: int, kPrev: int, i: nat)
    requires interval > 0.0 && OnGrid(input, interval, k) && (prev.Some? ==> OnGrid(prev.value, interval, kPrev))
    requires i < |input.batches|
    ensures prev.Some? ==> prev.value.interval > 0.0
    ensures ReuseCount(input, prev, maxReuse) <= |input.batches|
    ensures i < ReuseCount(input, prev, maxReuse) <==> Reusable(prev, maxReuse, k, kPrev, i)
    ensures Reusable(prev, maxReuse, k, kPrev, i) ==> ReuseRange(input, prev).0 == k - kPrev
  {
    if prev.Some? {
      GridIntersection(prev.value, input, interval, kPrev, k);
      SlotRange(input.start, interval, kPrev);
      SlotOfGridPoint(k, interval);
    }
  }

  /** What is handed on: the previous weight of the very same batch of the grid for every batch that may be
      reused, and nothing for any other. */
  lemma ReuseIsPositional(input: Input, prev: Result, maxReuse: nat, ws: seq<Ext>, interval: real, k: int, kPrev: int)
    requires interval > 0.0 && OnGrid(input, interval, k) && OnGrid(prev, interval, kPrev)
    requires IsHandedOn(input, Some(prev), maxReuse, ws)
    ensures |ws| == |input.batches| && forall i :: 0 <= i < |ws| ==>
              ws[i] == if kPrev <= k && i < maxReuse && k + i - kPrev < |prev.batches|
                       then prev.batches[k + i - kPrev].weight else UNCALCULATED
  {
    forall i | 0 <= i < |ws|
      ensures ws[i] == if kPrev <= k && i < maxReuse && k + i - kPrev < |prev.batches|
                       then prev.batches[k + i - kPrev].weight else UNCALCULATED
    {
      ReuseOnGrid(input, Some(prev), maxReuse, interval, k, kPrev, i);
    }
  }

  /** Handing on calculated weights gives a non-negative prefix followed by -1 entries only, so the
      search keeps exactly the reused weights. */
  lemma HandedOnPrefix(input: Input, prev: Option<Result>, maxReuse: nat, ws: seq<Ext>)
    requires prev.Some? ==> prev.value.interval > 0.0 && Calculated(prev.value)
    requires IsHandedOn(input, prev, maxReuse, ws)
    ensures ReuseCount(input, prev, maxReuse) <= |ws| && Kept(ws) == ws[..ReuseCount(input, prev, maxReuse)]
  {
    KeptIsPrefix(ws, ReuseCount(input, prev, maxReuse));
  }

  method HandOn(input: Input, prev: Option<Result>, maxReuse: nat) returns (ws: seq<Ext>)
    requires prev.Some? ==> prev.value.interval > 0.0
    ensures IsHandedOn(input, prev, maxReuse, ws)
  {
    var n := |input.batches|;
    ws := seq(n, _ => UNCALCULATED);
    var most := if maxReuse < n then maxReuse else n;
    if prev.Some? && prev.value.start <= input.start {
      var common := GetIntersection(prev.value, input);
      if common.Some? {
        var (first, second) := common.value;
        var i, j := 0, first;
        while i < most && j < second
          invariant 0 <= i <= most && j == first + i && (j <= second || i == 0)
          invariant |ws| == n
          invariant forall x :: 0 <= x < n ==>
            ws[x] == if x < i then prev.value.batches[first + x].weight else UNCALCULATED
        {
          ws := ws[i := prev.value.batches[j].weight];
          i, j := i + 1, j + 1;
        }
      }
    }
  }

  /** What a finished result is: the input's counts with the weights the search assigns. */
  ghost predicate IsResult(m: Libm, params: Params, input: Input, kept: seq<Ext>, res: Result) {
    var d, r := DVector(input), RVector(input);
    && res.start == input.start && res.interval == input.interval && |res.batches| == |input.batches|
    && (forall i :: 0 <= i < |res.batches| ==>
          res.batches[i].d == input.batches[i].d && res.batches[i].r == input.batches[i].r)
    && Calculated(res)
    && Legal(d, r, params)
    && (0 < |d| && |kept| <= |d| && Total(d) > 0 ==> Detected(m, d, r, params, kept, Weights(res)))
    && (Total(d) == 0 ==> Weights(res) == Pad([], |d|, Fin(0.0)))
  }

  /** The weights kept for the search of `input` after a result `prev`. */
  ghost predicate IsKept(input: Input, prev: Option<Result>, maxReuse: nat, kept: seq<Ext>) {
    && (prev.Some? ==> prev.value.interval > 0.0)
    && (ReuseRangeInside(input, prev);
        var k, first := ReuseCount(input, prev, maxReuse), ReuseRange(input, prev).0;
        |kept| == k && forall i :: 0 <= i < k ==> kept[i] == prev.value.batches[first + i].weight)
  }

  /** The search accepts its parameters and the counts of the window. */
  ghost predicate Accepted(params: Params, input: Input) {
    && params.gamma > 0.0 && params.scaling > 1.0 && params.threshold > 0.0
    && forall i :: 0 <= i < |input.batches| ==> input.batches[i].r <= input.batches[i].d
  }

  lemma AcceptedIsLegal(params: Params, input: Input)
    ensures Accepted(params, input) <==> Legal(DVector(input), RVector(input), params)
  {
    var d, r := DVector(input), RVector(input);
    forall i | 0 <= i < |input.batches| ensures d[i] == input.batches[i].d && r[i] == input.batches[i].r { }
    if Legal(d, r, params) {
      forall i | 0 <= i < |input.batches| ensures input.batches[i].r <= input.batches[i].d {
        assert r[i] <= d[i];
      }
    }
  }

  /** The constructor of burst_result; None when the search rejects its arguments. */
  method MakeResult(m: Libm, params: Params, input: Input, prev: Option<Result>, maxReuse: nat)
      returns (res: Option<Result>, ghost kept: seq<Ext>)
    requires 0 < |input.batches|
    requires prev.Some? ==> prev.value.interval > 0.0 && Calculated(prev.value)
    ensures res.Some? <==> Accepted(params, input)
    ensures res.Some? ==> IsKept(input, prev, maxReuse, kept) && IsResult(m, params, input, kept, res.value)
  {
    var d, r := DVector(input), RVector(input);
    AcceptedIsLegal(params, input);
    var ws := HandOn(input, prev, maxReuse);
    HandedOnPrefix(input, prev, maxReuse, ws);
    kept := Kept(ws);
    var outcome := BurstDetect(m, d, r, ws, params);
    if outcome.InvalidParameter? {
      return None, kept;
    }
    var out := outcome.weights;
    var batches := seq(|d|, i requires 0 <= i < |d| && |d| == |r| == |out| => ResultBatch(d[i], r[i], out[i]));
    res := Some(Window(batches, input.start, input.interval));
    assert Weights(res.value) == out;
  }

  /** The result that the n-th one continues. */
  function Before(first: Option<Result>, results: seq<Result>, n: nat): Option<Result>
    requires n <= |results|
  {
    if n == 0 then first else Some(results[n - 1])
  }

  /** What a window's result must be, given the result before it and the weights kept from that. */
  type Rule = (Input, Option<Result>, Result, seq<Ext>) -> bool

  ghost function ResultRule(m: Libm, params: Params, maxReuse: nat): Rule {
    (input, prev, result, kept) => IsKept(input, prev, maxReuse, kept) && IsResult(m, params, input, kept, result)
  }

  ghost predicate Follows(rule: Rule, inputs: seq<Input>, first: Option<Result>, results: seq<Result>,
                          kept: seq<seq<Ext>>, n: nat)
    requires n < |inputs| == |results| == |kept|
  {
    rule(inputs[n], Before(first, results, n), results[n], kept[n])
  }

  /** `results` are those of `inputs`, oldest window first, each continuing the one before it. */
  ghost predicate IsChain(rule: Rule, inputs: seq<Input>, first: Option<Result>, results: seq<Result>,
      kept: seq<seq<Ext>>) {
    && |results| == |inputs| == |kept|
    && forall n :: 0 <= n < |inputs| ==> Follows(rule, inputs, first, results, kept, n)
  }

  lemma ChainExtends(rule: Rule, inputs: seq<Input>, first: Option<Result>, results: seq<Result>, kept: seq<seq<Ext>>,
                     input: Input, result: Result, k: seq<Ext>)
    requires IsChain(rule, inputs, first, results, kept)
    requires rule(input, Before(first, results, |results|), result, k)
    ensures IsChain(rule, inputs + [input], first, results + [result], kept + [k])
  {
    var all := results + [result];
    forall n | 0 <= n < |all| ensures Follows(rule, inputs + [input], first, all, kept + [k], n) {
      assert Before(first, all, n) == Before(first, results, n);
      assert n < |results| ==> Follows(rule, inputs, first, results, kept, n);
    }
  }

  ghost predicate Usable(prev: Option<Result>) {
    prev.Some? ==> prev.value.interval > 0.0 && Calculated(prev.value)
  }

  ghost predicate Searchable(input: Input) {
    0 < |input.batches| && input.interval > 0.0
  }

  /** The loop over the windows, having passed the first n. */
  ghost predicate Progress(m: Libm, params: Params, inputs: seq<Input>, first: Option<Result>, maxReuse: nat, n: nat,
                           prev: Option<Result>, out: seq<Result>, kept: seq<seq<Ext>>)
    requires n <= |inputs|
  {
    && |out| == n && prev == Before(first, out, n) && Usable(prev)
    && IsChain(ResultRule(m, params, maxReuse), inputs[..n], first, out, kept)
  }

  /** One pass of the loop over the windows. */
  method Continue(m: Libm, params: Params, inputs: seq<Input>, n: nat, ghost first: Option<Result>,
                  prev: Option<Result>, maxReuse: nat, out: seq<Result>, ghost kept: seq<seq<Ext>>)
      returns (ok: bool, prev': Option<Result>, out': seq<Result>, ghost kept': seq<seq<Ext>>)
    requires n < |inputs| && Searchable(inputs[n])
    requires Progress(m, params, inputs, first, maxReuse, n, prev, out, kept)
    ensures ok <==> Accepted(params, inputs[n])
    ensures ok ==> Progress(m, params, inputs, first, maxReuse, n + 1, prev', out', kept')
  {
    var res, k := MakeResult(m, params, inputs[n], prev, maxReuse);
    if res.None? {
      return false, prev, out, kept;
    }
    ChainExtends(ResultRule(m, params, maxReuse), inputs[..n], first, out, kept, inputs[n], res.value, k);
    OneMore(inputs, n);
    return true, res, out + [res.value], kept + [k];
  }

  lemma OneMore<T>(s: seq<T>, n: nat)
    requires n < |s|
    ensures s[..n] + [s[n]] == s[..n + 1]
  {
  }

  lemma AllPassed(m: Libm, params: Params, inputs: seq<Input>, first: Option<Result>, maxReuse: nat,
                  prev: Option<Result>, out: seq<Result>, kept: seq<seq<Ext>>)
    requires Progress(m, params, inputs, first, maxReuse, |inputs|, prev, out, kept)
    ensures IsChain(ResultRule(m, params, maxReuse), inputs, first, out, kept)
  {
    assert inputs[..|inputs|] == inputs;
  }

  /** The loop of flush_results; None when the search rejects the counts of a window, which is then named. */
  method MakeResults(m: Libm, params: Params, inputs: seq<Input>, first: Option<Result>, maxReuse: nat)
      returns (results: Option<seq<Result>>, rejected: nat, ghost kept: seq<seq<Ext>>)
    requires (forall i :: 0 <= i < |inputs| ==> Searchable(inputs[i])) && Usable(first)
    ensures results.None? ==> rejected < |inputs| && !Accepted(params, inputs[rejected])
    ensures results.Some? ==> IsChain(ResultRule(m, params, maxReuse), inputs, first, results.value, kept)
  {
    var out: seq<Result> := [];
    kept := [];
    var prev := first;
    for n := 0 to |inputs|
      invariant Progress(m, params, inputs, first, maxReuse, n, prev, out, kept)
    {
      var ok;
      ok, prev, out, kept := Continue(m, params, inputs, n, first, prev, maxReuse, out, kept);
      if !ok {
        return None, n, kept;
      }
    }
    AllPassed(m, params, inputs, first, maxReuse, prev, out, kept);
    results, rejected := Some(out), |inputs|;
  }

  // ----- what is reused along the chain

  lemma KeptIsPositional(input: Input, prev: Option<Result>, maxReuse: nat, kept: seq<Ext>, interval: real, k: int,
                         kPrev: int, i: nat)
    requires interval > 0.0 && OnGrid(input, interval, k) && (prev.Some? ==> OnGrid(prev.value, interval, kPrev))
    requires IsKept(input, prev, maxReuse, kept) && i < |input.batches|
    ensures |kept| <= |input.batches| && (i < |kept| <==> Reusable(prev, maxReuse, k, kPrev, i))
    ensures i < |kept| ==> kept[i] == prev.value.batches[k + i - kPrev].weight
  {
    ReuseOnGrid(input, prev, maxReuse, interval, k, kPrev, i);
  }

  function OldestFirst(deque: seq<Input>): seq<Input> {
    seq(|deque|, i requires 0 <= i < |deque| => deque[|deque| - 1 - i])
  }

  /** The grid batch at which the n-th oldest window starts, or where the result before all of them does. */
  ghost function FirstBatch(gs: seq<BurstGrid.GridWindow>, before: int, n: int): int
    requires n < |gs|
  {
    if n < 0 then before else gs[|gs| - 1 - n].first
  }

  /** For the windows of an aggregator, in a flush: exactly the first batches of a window, up to the limit, that the
      result before it has too are reused, each with the weight of that result for the same batch of the grid. */
  lemma ChainReusesSameBatch(m: Libm, params: Params, first: Option<Result>, maxReuse: nat, results: seq<Result>,
                             kept: seq<seq<Ext>>, c: BurstAggregator.Config, deque: seq<Input>,
                             gs: seq<BurstGrid.GridWindow>, before: int, n: nat, i: nat)
    requires c.Valid() && BurstAggregator.AllRepresent(c, deque, gs)
    requires first.Some? ==> OnGrid(first.value, c.interval, before)
    requires IsChain(ResultRule(m, params, maxReuse), OldestFirst(deque), first, results, kept)
    requires n < |kept| && i < |OldestFirst(deque)[n].batches|
    ensures var prev := Before(first, results, n);
            var at := FirstBatch(gs, before, n) + i - FirstBatch(gs, before, n - 1);
            && |kept[n]| <= |OldestFirst(deque)[n].batches|
            && (i < |kept[n]| <==> prev.Some? && i <= at < |prev.value.batches| && i < maxReuse)
            && (i < |kept[n]| ==> kept[n][i] == prev.value.batches[at].weight)
  {
    ChainAt(m, params, OldestFirst(deque), first, maxReuse, results, kept, n);
    if n > 0 {
      ChainAt(m, params, OldestFirst(deque), first, maxReuse, results, kept, n - 1);
    }
    KeptIsPositional(OldestFirst(deque)[n], Before(first, results, n), maxReuse, kept[n], c.interval,
                     FirstBatch(gs, before, n), FirstBatch(gs, before, n - 1), i);
  }

  lemma ChainAt(m: Libm, params: Params, inputs: seq<Input>, first: Option<Result>, maxReuse: nat,
                results: seq<Result>, kept: seq<seq<Ext>>, n: nat)
    requires IsChain(ResultRule(m, params, maxReuse), inputs, first, results, kept) && n < |inputs|
    ensures IsKept(inputs[n], Before(first, results, n), maxReuse, kept[n])
    ensures results[n].start == inputs[n].start && results[n].interval == inputs[n].interval
  {
    assert Follows(ResultRule(m, params, maxReuse), inputs, first, results, kept, n);
  }
}
