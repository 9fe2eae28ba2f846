/** The aggregator's code on real positions (jubatus/core/burst/aggregator.cpp), shown to behave
    like the windows of whole batches in BurstGrid. */
module BurstAggregator {
  import opened Options
  import opened BurstWindows
  import opened BurstGrid

  type Input = Window<Batch>

  datatype Config = Config(size: nat, interval: real, maxStored: nat) {
    predicate Valid() { size > 0 && interval > 0.0 && maxStored > 0 }

    function Bounds(): Limits { Limits(size, maxStored) }
  }

  ghost predicate Represents(c: Config, w: Input, g: GridWindow) {
    w.batches == g.batches && OnGrid(w, c.interval, g.first)
  }

  lemma EndOnGrid(c: Config, w: Input, g: GridWindow, pos: real)
    requires c.Valid() && Represents(c, w, g)
    ensures w.interval > 0.0
    ensures w.EndPos() <= pos <==> g.first + |g.batches| <= Slot(pos, c.interval)
    ensures w.GetIndex(pos) == if g.Covers(Slot(pos, c.interval)) then Some(Slot(pos, c.interval) - g.first) else None
  {
    GridIndex(w, c.interval, g.first, pos);
  }

  lemma OverlapOnGrid(c: Config, w: Input, v: Input, g: GridWindow, h: GridWindow)
    requires c.Valid() && Represents(c, w, g) && Represents(c, v, h) && |g.batches| > 0 && |h.batches| > 0
    ensures w.interval > 0.0 && GetIntersection(w, v).Some?
    ensures GetIntersection(w, v).value.0 != GetIntersection(w, v).value.1 <==> Overlap(g, h)
  {
    GridIntersection(w, v, c.interval, g.first, h.first);
  }

  /** Where the new window starts: the position's batch minus half a window, counted from `prev`. */
  function NewStart(c: Config, pos: real, prev: Input): real
    requires c.Valid()
  {
    var i := ((pos - prev.start) / c.interval).Floor;
    var j := i - c.size / 2;
    prev.start + c.interval * j as real
  }

  lemma NewStartOnGrid(c: Config, pos: real, prev: Input, g: GridWindow)
    requires c.Valid() && Represents(c, prev, g)
    ensures NewStart(c, pos, prev) == GridPoint(Slot(pos, c.interval) - c.size / 2, c.interval)
  {
    GridIndex(prev, c.interval, g.first, pos);
    var j := Slot(pos, c.interval) - g.first - c.size / 2;
    var _ := GridDifference(g.first, j, c.interval);
  }

  /** The intersection names exactly the batches of `prev` that the new window covers too. */
  lemma CommonRange(c: Config, prev: Input, next: Input, g: GridWindow, first: int) returns (begin: nat, end: nat)
    requires c.Valid() && Represents(c, prev, g) && OnGrid(next, c.interval, first)
    requires |g.batches| <= |next.batches| && (g.batches == [] || g.first <= first)
    ensures prev.interval > 0.0 && GetIntersection(prev, next) == Some((begin, end))
    ensures end <= |g.batches| && end - begin <= |next.batches|
    ensures begin < end ==> begin == first - g.first && end == |g.batches|
    ensures begin >= end ==> g.batches == [] || g.first + |g.batches| <= first
  {
    GridIntersection(prev, next, c.interval, g.first, first);
    begin := prev.AdjustIndex(first - g.first);
    end := prev.AdjustIndex(first + |next.batches| - g.first);
  }

  method MakeNewWindow(c: Config, pos: real, prev: Input, ghost g: GridWindow) returns (w: Input)
    requires c.Valid() && Represents(c, prev, g)
    requires prev.batches == [] || (|prev.batches| == c.size && prev.EndPos() <= pos)
    ensures Represents(c, w, NewWindow(c.Bounds(), Slot(pos, c.interval), g))
  {
    EndOnGrid(c, prev, g, pos);
    NewStartOnGrid(c, pos, prev, g);
    ghost var slot := Slot(pos, c.interval);
    w := Window(seq(c.size, _ => ZERO), NewStart(c, pos, prev), c.interval);
    ghost var begin, end := CommonRange(c, prev, w, g, slot - c.size / 2);
    var common := GetIntersection(prev, w);
    if common.Some? {
      var batches := CopyRange(prev.batches, common.value.0, common.value.1, w.batches);
      CopiedIsNew(c.Bounds(), slot, g, begin, end, batches);
      w := w.(batches := batches);
    }
  }

  /** dst with its first entries replaced by src[begin..end]. */
  method CopyRange(src: seq<Batch>, begin: nat, end: nat, dst: seq<Batch>) returns (out: seq<Batch>)
    requires end <= |src| && end - begin <= |dst|
    ensures |out| == |dst|
    ensures forall b :: 0 <= b < |dst| ==> out[b] == if begin + b < end then src[begin + b] else dst[b]
  {
    out := dst;
    var i, j := 0, begin;
    while j < end
      invariant 0 <= i && j == begin + i && |out| == |dst| && (j <= end || i == 0)
      invariant forall b :: 0 <= b < |dst| ==> out[b] == if b < i then src[begin + b] else dst[b]
    {
      out := out[i := src[j]];
      i, j := i + 1, j + 1;
    }
  }

  /** input_window::add_document. */
  method AddToWindow(c: Config, w: Input, d: nat, r: nat, pos: real, ghost g: GridWindow)
      returns (added: bool, w': Input)
    requires c.Valid() && Represents(c, w, g)
    ensures added <==> g.Covers(Slot(pos, c.interval))
    ensures Represents(c, w', if added then Bump(g, Slot(pos, c.interval), d, r) else g)
  {
    EndOnGrid(c, w, g, pos);
    var at := w.GetIndex(pos);
    if at == None {
      return false, w;
    }
    var b := w.batches[at.value];
    return true, w.(batches := w.batches[at.value := Batch(b.d + d, b.r + r)]);
  }

  /** Does the intersection with the newest window exist? */
  method SharesBatch(c: Config, w: Input, v: Input, ghost g: GridWindow, ghost h: GridWindow) returns (yes: bool)
    requires c.Valid() && Represents(c, w, g) && Represents(c, v, h) && |g.batches| > 0 && |h.batches| > 0
    ensures yes <==> Overlap(g, h)
  {
    OverlapOnGrid(c, w, v, g, h);
    var common := GetIntersection(w, v);
    yes := common.Some? && common.value.0 != common.value.1;
  }

  ghost predicate AllRepresent(c: Config, ws: seq<Input>, gs: seq<GridWindow>) {
    |ws| == |gs| && forall i :: 0 <= i < |ws| ==> Represents(c, ws[i], gs[i])
  }

  lemma RepresentNext(c: Config, ws: seq<Input>, done: seq<GridWindow>, gs: seq<GridWindow>, i: nat, w: Input,
                      g: GridWindow)
    requires i == |done| < |gs| && AllRepresent(c, ws, done + gs[i..]) && Represents(c, w, g)
    ensures AllRepresent(c, ws[i := w], (done + [g]) + gs[i + 1..])
  {
    var before, after := done + gs[i..], (done + [g]) + gs[i + 1..];
    forall j | 0 <= j < |ws| ensures Represents(c, ws[i := w][j], after[j]) {
      assert j != i ==> after[j] == before[j];
    }
  }

  class Aggregator {
    const c: Config
    var inputs: seq<Input>
    ghost var state: Stored  // the same windows in whole batches, and the documents accepted so far

    ghost predicate Valid()
      reads this
    {
      && Inv(c.Bounds(), state.windows, state.log)
      && c.Valid()
      && AllRepresent(c, inputs, state.windows)
    }

    constructor (c: Config)
      requires c.Valid()
      ensures Valid() && this.c == c && state == START
    {
      this.c := c;
      inputs, state := [], START;
    }

    method AddDocument(d: nat, r: nat, pos: real) returns (added: bool)
      requires Valid()
      modifies this
      ensures Valid() && state == Step(c.Bounds(), old(state), Add(d, r, Slot(pos, c.interval)))
      ensures added <==> state.windows[0].first <= Slot(pos, c.interval)
      ensures state.log == if added then old(state.log) + [Doc(Slot(pos, c.interval), d, r)] else old(state.log)
    {
      ghost var slot := Slot(pos, c.interval);
      ghost var grown := Grow(c.Bounds(), state.windows, slot);
      GrowInv(c.Bounds(), state.windows, state.log, slot);
      AddInv(c.Bounds(), grown, state.log, d, r, slot);
      OpenFor(pos);
      assert AllRepresent(c, inputs, grown);
      added := AddToWindows(d, r, pos, grown);
      state := Step(c.Bounds(), state, Add(d, r, slot));
    }

    /** Opens a new window when the position lies past the newest one, and drops the oldest ones. */
    method OpenFor(pos: real)
      requires Valid()
      modifies this`inputs
      ensures AllRepresent(c, inputs, Grow(c.Bounds(), state.windows, Slot(pos, c.interval)))
    {
      if inputs == [] {
        var w := MakeNewWindow(c, pos, Window([], 0.0, c.interval), GridWindow(0, []));
        inputs := [w];
      } else {
        EndOnGrid(c, inputs[0], state.windows[0], pos);
        if inputs[0].EndPos() <= pos {
          ghost var g := NewWindow(c.Bounds(), Slot(pos, c.interval), state.windows[0]);
          var w := MakeNewWindow(c, pos, inputs[0], state.windows[0]);
          inputs := [w] + inputs;
          ghost var all := [g] + state.windows;
          while |inputs| > c.maxStored
            invariant c.maxStored <= |inputs| || inputs == [w] + old(inputs)
            invariant |inputs| <= |all| && AllRepresent(c, inputs, all[..|inputs|])
            decreases |inputs|
          {
            inputs := inputs[..|inputs| - 1];
          }
          assert all[..|all|] == all;
        }
      }
    }

    /** The loop over the deque, newest window first. */
    method AddToWindows(d: nat, r: nat, pos: real, ghost gs: seq<GridWindow>) returns (added: bool)
      requires c.Valid() && AllRepresent(c, inputs, gs)
      modifies this`inputs
      ensures AllRepresent(c, inputs, AddToAll(gs, d, r, Slot(pos, c.interval)))
      ensures added <==> Accepts(gs, Slot(pos, c.interval))
    {
      ghost var slot := Slot(pos, c.interval);
      ghost var done: seq<GridWindow> := [];  // the windows already passed
      added := false;
      var i := 0;
      while i < |inputs|
        invariant i == |done| <= |inputs| == |gs|
        invariant AllRepresent(c, inputs, done + gs[i..])
        invariant AddToAll(gs, d, r, slot) == done + AddToAll(gs[i..], d, r, slot)
        invariant added <==> 0 < i
        invariant 0 < i ==> gs[0].Covers(slot)
      {
        assert (done + gs[i..])[i] == gs[i];
        AddToAllStep(done, gs, i, d, r, slot);
        var ok, w := AddToWindow(c, inputs[i], d, r, pos, gs[i]);
        if !ok {
          return;
        }
        RepresentNext(c, inputs, done, gs, i, w, Bump(gs[i], slot, d, r));
        inputs := inputs[i := w];
        done := done + [Bump(gs[i], slot, d, r)];
        added := true;
        i := i + 1;
      }
    }

    /** The end of flush_results: erases the windows that no later document can change, and counts them. */
    method EraseFinished() returns (n: nat)
      requires Valid()
      modifies this
      ensures Valid() && state == Step(c.Bounds(), old(state), Flush)
      ensures n == |old(inputs)| - |inputs| && inputs <= old(inputs)
      ensures old(inputs) != [] ==> inputs != []
    {
      n := 0;
      if inputs != [] {
        var rest := WithoutFinished(c, inputs, state.windows);
        n, inputs := |inputs| - |rest|, rest;
        PrunedInv(c.Bounds(), state.windows, state.log);
      }
      state := Step(c.Bounds(), state, Flush);
    }
  }

  method WithoutFinished(c: Config, inputs: seq<Input>, ghost ws: seq<GridWindow>) returns (rest: seq<Input>)
    requires c.Valid() && AllRepresent(c, inputs, ws) && inputs != []
    requires forall i :: 0 <= i < |ws| ==> |ws[i].batches| > 0
    ensures rest <= inputs && rest != [] && AllRepresent(c, rest, Pruned(ws))
  {
    rest := inputs;
    assert ws[..|ws|] == ws;
    while true
      invariant 0 < |rest| <= |ws| && rest == inputs[..|rest|]
      invariant Pruned(ws[..|rest|]) == Pruned(ws)
      decreases |rest|
    {
      ghost var m, left := |rest|, ws[..|rest|];
      assert left[m - 1] == ws[m - 1] && left[0] == ws[0];
      var yes := SharesBatch(c, rest[|rest| - 1], rest[0], left[m - 1], left[0]);
      if yes {
        assert Pruned(left) == left;
        break;
      }
      assert left[..m - 1] == ws[..m - 1];
      rest := rest[..|rest| - 1];
    }
  }
}
