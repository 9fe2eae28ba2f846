/** What the deque of overlapping burst windows means, in whole batches: window k starts at batch
    `first` of the grid, documents carry the grid batch they fall into. Newest window first.
    BurstAggregator shows that the code on real positions behaves like this. */
module BurstGrid {

  datatype Batch = Batch(d: nat, r: nat)

  const ZERO := Batch(0, 0)

  datatype Limits = Limits(size: nat, maxStored: nat) {
    predicate Valid() { size > 0 && maxStored > 0 }
  }

  datatype GridWindow = GridWindow(first: int, batches: seq<Batch>) {
    predicate Covers(slot: int) { first <= slot < first + |batches| }
  }

  function Bump(w: GridWindow, slot: int, d: nat, r: nat): GridWindow
    requires w.Covers(slot)
  {
    var b := w.batches[slot - w.first];
    w.(batches := w.batches[slot - w.first := Batch(b.d + d, b.r + r)])
  }

  /** The window opened for a document: half a window before it, agreeing with `prev` where they overlap. */
  function NewWindow(c: Limits, slot: int, prev: GridWindow): GridWindow {
    var first := slot - c.size / 2;
    GridWindow(first, seq(c.size, b requires 0 <= b < c.size =>
      if prev.Covers(first + b) then prev.batches[first + b - prev.first] else ZERO))
  }

  function Grow(c: Limits, windows: seq<GridWindow>, slot: int): seq<GridWindow> {
    if windows == [] then [NewWindow(c, slot, GridWindow(0, []))]
    else if windows[0].first + |windows[0].batches| <= slot then
      var all := [NewWindow(c, slot, windows[0])] + windows;
      if |all| > c.maxStored then all[..c.maxStored] else all
    else windows
  }

  /** Adds to the windows from the newest on, up to the first one that does not take the document. */
  function AddToAll(windows: seq<GridWindow>, d: nat, r: nat, slot: int): seq<GridWindow> {
    if windows == [] || !windows[0].Covers(slot) then windows
    else [Bump(windows[0], slot, d, r)] + AddToAll(windows[1..], d, r, slot)
  }

  predicate Accepts(windows: seq<GridWindow>, slot: int) {
    windows != [] && windows[0].Covers(slot)
  }

  predicate Overlap(w: GridWindow, v: GridWindow) {
    w.first < v.first + |v.batches| && v.first < w.first + |w.batches|
  }

  /** What is left after erasing, from the oldest on, the windows that share no batch with the newest. */
  function Pruned(windows: seq<GridWindow>): seq<GridWindow> {
    if windows == [] || Overlap(windows[|windows| - 1], windows[0]) then windows
    else Pruned(windows[..|windows| - 1])
  }

  // ----- exact totals over all accepted documents

  datatype Doc = Doc(slot: int, d: nat, r: nat)

  ghost function TotalAt(log: seq<Doc>, slot: int): Batch {
    if log == [] then ZERO
    else
      var rest, e := TotalAt(log[..|log| - 1], slot), log[|log| - 1];
      if e.slot == slot then Batch(rest.d + e.d, rest.r + e.r) else rest
  }

  ghost predicate Exact(w: GridWindow, log: seq<Doc>) {
    forall b :: 0 <= b < |w.batches| ==> w.batches[b] == TotalAt(log, w.first + b)
  }

  /** Neighbouring windows start at least half a window apart, all others do not overlap. */
  ghost predicate Spaced(size: nat, windows: seq<GridWindow>) {
    && (forall i :: 0 <= i < |windows| ==> |windows[i].batches| == size)
    && (forall i :: 0 <= i < |windows| - 1 ==> windows[i].first >= windows[i + 1].first + size - size / 2)
    && (forall i, j :: 0 <= i && i + 1 < j < |windows| ==> windows[i].first >= windows[j].first + size)
  }

  ghost predicate Inv(c: Limits, windows: seq<GridWindow>, log: seq<Doc>) {
    && c.Valid()
    && |windows| <= c.maxStored
    && Spaced(c.size, windows)
    && (forall i :: 0 <= i < |windows| ==> Exact(windows[i], log))
    && (windows == [] ==> log == [])
    && (forall e :: e in log ==> e.slot < windows[0].first + c.size)
  }

  lemma {:induction false} NoneAt(log: seq<Doc>, slot: int)
    requires forall e :: e in log ==> e.slot != slot
    ensures TotalAt(log, slot) == ZERO
  {
    if log != [] {
      NoneAt(log[..|log| - 1], slot);
    }
  }

  lemma TotalAppend(log: seq<Doc>, e: Doc, slot: int)
    ensures TotalAt(log + [e], slot)
         == if e.slot == slot then Batch(TotalAt(log, slot).d + e.d, TotalAt(log, slot).r + e.r) else TotalAt(log, slot)
  {
    assert (log + [e])[..|log|] == log;
  }

  lemma NewWindowExact(c: Limits, slot: int, prev: GridWindow, log: seq<Doc>)
    requires Exact(prev, log) && forall e :: e in log ==> e.slot < prev.first + |prev.batches|
    requires log == [] || prev.first <= slot - c.size / 2
    ensures Exact(NewWindow(c, slot, prev), log)
  {
    var w := NewWindow(c, slot, prev);
    forall b | 0 <= b < |w.batches| ensures w.batches[b] == TotalAt(log, w.first + b) {
      if !prev.Covers(w.first + b) {
        NoneAt(log, w.first + b);
      }
    }
  }

  lemma GrowInv(c: Limits, windows: seq<GridWindow>, log: seq<Doc>, slot: int)
    requires Inv(c, windows, log)
    ensures Inv(c, Grow(c, windows, slot), log) && Grow(c, windows, slot) != []
    ensures Accepts(Grow(c, windows, slot), slot) <==> Grow(c, windows, slot)[0].first <= slot
    ensures windows != [] ==> windows[0].first <= Grow(c, windows, slot)[0].first
  {
    if windows == [] {
      NewWindowExact(c, slot, GridWindow(0, []), log);
    } else if windows[0].first + |windows[0].batches| <= slot {
      NewWindowExact(c, slot, windows[0], log);
    }
  }

  /** Despite stopping at the first refusal, every stored window that contains the position is reached. */
  lemma AddReachesAll(size: nat, windows: seq<GridWindow>, d: nat, r: nat, slot: int)
    requires Spaced(size, windows) && Accepts(windows, slot)
    ensures var after := AddToAll(windows, d, r, slot);
            |after| == |windows| && forall i :: 0 <= i < |windows| ==>
              after[i] == if windows[i].Covers(slot) then Bump(windows[i], slot, d, r) else windows[i]
  {
    var rest := windows[1..];
    if rest != [] && rest[0].Covers(slot) {
      assert AddToAll(rest[1..], d, r, slot) == rest[1..];
    }
  }

  lemma BumpExact(w: GridWindow, log: seq<Doc>, d: nat, r: nat, slot: int)
    requires Exact(w, log)
    ensures Exact(if w.Covers(slot) then Bump(w, slot, d, r) else w, log + [Doc(slot, d, r)])
  {
    forall b | 0 <= b < |w.batches|
      ensures TotalAt(log + [Doc(slot, d, r)], w.first + b)
           == if w.first + b == slot then Batch(w.batches[b].d + d, w.batches[b].r + r) else w.batches[b]
    {
      TotalAppend(log, Doc(slot, d, r), w.first + b);
    }
  }

  function LogAfter(windows: seq<GridWindow>, log: seq<Doc>, d: nat, r: nat, slot: int): seq<Doc> {
    if Accepts(windows, slot) then log + [Doc(slot, d, r)] else log
  }

  lemma AddInv(c: Limits, windows: seq<GridWindow>, log: seq<Doc>, d: nat, r: nat, slot: int)
    requires Inv(c, windows, log)
    ensures var after := AddToAll(windows, d, r, slot);
            Inv(c, after, LogAfter(windows, log, d, r, slot))
            && |after| == |windows| && (windows != [] ==> after[0].first == windows[0].first)
  {
    if Accepts(windows, slot) {
      var after, log' := AddToAll(windows, d, r, slot), log + [Doc(slot, d, r)];
      AddReachesAll(c.size, windows, d, r, slot);
      forall i | 0 <= i < |windows|
        ensures Exact(after[i], log') && after[i].first == windows[i].first && |after[i].batches| == c.size
      {
        BumpExact(windows[i], log, d, r, slot);
      }
      assert Spaced(c.size, after);
    }
  }

  lemma {:induction false} PrunedInv(c: Limits, windows: seq<GridWindow>, log: seq<Doc>)
    requires Inv(c, windows, log) && windows != []
    ensures Inv(c, Pruned(windows), log) && Pruned(windows) != [] && Pruned(windows) <= windows
    ensures forall i :: |Pruned(windows)| <= i < |windows| ==> windows[i].first + c.size <= windows[0].first
    decreases |windows|
  {
    var n := |windows|;
    if !Overlap(windows[n - 1], windows[0]) {
      var shorter := windows[..n - 1];
      assert n > 1;
      PrunedInv(c, shorter, log);
      assert Pruned(windows) == Pruned(shorter) <= shorter <= windows;
    }
  }

  // ----- single steps of the loops over the deque

  /** Batches copied from position `begin` of prev on are those of a new window. */
  lemma CopiedIsNew(c: Limits, slot: int, prev: GridWindow, begin: nat, end: nat, batches: seq<Batch>)
    requires end <= |prev.batches| && |batches| == c.size
    requires begin < end ==> begin == slot - c.size / 2 - prev.first && end == |prev.batches|
    requires begin >= end ==> prev.batches == [] || prev.first + |prev.batches| <= slot - c.size / 2
    requires prev.batches == [] || prev.first <= slot - c.size / 2
    requires forall b :: 0 <= b < c.size ==> batches[b] == if begin + b < end then prev.batches[begin + b] else ZERO
    ensures batches == NewWindow(c, slot, prev).batches
  {
    var w := NewWindow(c, slot, prev);
    forall b | 0 <= b < c.size ensures batches[b] == w.batches[b] {
      assert prev.Covers(w.first + b) <==> begin + b < end;
    }
  }

  lemma AddToAllStep(done: seq<GridWindow>, gs: seq<GridWindow>, i: nat, d: nat, r: nat, slot: int)
    requires i < |gs| && AddToAll(gs, d, r, slot) == done + AddToAll(gs[i..], d, r, slot)
    ensures AddToAll(gs, d, r, slot)
         == if gs[i].Covers(slot) then (done + [Bump(gs[i], slot, d, r)]) + AddToAll(gs[i + 1..], d, r, slot)
            else done + gs[i..]
  {
    assert gs[i..][0] == gs[i] && gs[i..][1..] == gs[i + 1..];
  }

  // ----- whole runs

  datatype Event = Add(d: nat, r: nat, slot: int) | Flush

  datatype Stored = Stored(windows: seq<GridWindow>, log: seq<Doc>)

  const START := Stored([], [])

  function Step(c: Limits, s: Stored, e: Event): Stored {
    match e
    case Add(d, r, slot) =>
      var windows := Grow(c, s.windows, slot);
      Stored(AddToAll(windows, d, r, slot), LogAfter(windows, s.log, d, r, slot))
    case Flush => Stored(Pruned(s.windows), s.log)
  }

  function Run(c: Limits, s: Stored, events: seq<Event>): Stored
    decreases events
  {
    if events == [] then s else Run(c, Step(c, s, events[0]), events[1..])
  }

  lemma StepInv(c: Limits, s: Stored, e: Event)
    requires Inv(c, s.windows, s.log)
    ensures Inv(c, Step(c, s, e).windows, Step(c, s, e).log)
    ensures s.windows != [] ==>
      Step(c, s, e).windows != [] && s.windows[0].first <= Step(c, s, e).windows[0].first
    ensures s.windows != [] ==> forall slot :: slot < s.windows[0].first ==>
      TotalAt(Step(c, s, e).log, slot) == TotalAt(s.log, slot)
  {
    match e
    case Add(d, r, slot) =>
      GrowInv(c, s.windows, s.log, slot);
      AddInv(c, Grow(c, s.windows, slot), s.log, d, r, slot);
      forall other { TotalAppend(s.log, Doc(slot, d, r), other); }
    case Flush =>
      if s.windows != [] {
        PrunedInv(c, s.windows, s.log);
      }
  }

  lemma {:induction false} RunInv(c: Limits, s: Stored, events: seq<Event>)
    requires Inv(c, s.windows, s.log)
    ensures Inv(c, Run(c, s, events).windows, Run(c, s, events).log)
    ensures s.windows != [] ==> forall slot :: slot < s.windows[0].first ==>
      TotalAt(Run(c, s, events).log, slot) == TotalAt(s.log, slot)
    decreases events
  {
    if events != [] {
      StepInv(c, s, events[0]);
      RunInv(c, Step(c, s, events[0]), events[1..]);
    }
  }

  /** In every reachable state each stored window holds, for every batch it covers, exactly the total of
      all documents accepted there so far. */
  lemma WindowsAreExact(c: Limits, events: seq<Event>, i: nat, b: nat)
    requires c.Valid()
    requires var s := Run(c, START, events); i < |s.windows| && b < |s.windows[i].batches|
    ensures var s := Run(c, START, events);
            s.windows[i].batches[b] == TotalAt(s.log, s.windows[i].first + b)
  {
    RunInv(c, START, events);
  }

  /** Hence stored windows agree on every batch both cover, and only neighbours have one in common. */
  lemma WindowsAgree(c: Limits, events: seq<Event>, i: nat, j: nat, slot: int)
    requires c.Valid()
    requires var ws := Run(c, START, events).windows; i < j < |ws| && ws[i].Covers(slot) && ws[j].Covers(slot)
    ensures var ws := Run(c, START, events).windows;
            j == i + 1 && ws[i].batches[slot - ws[i].first] == ws[j].batches[slot - ws[j].first]
  {
    RunInv(c, START, events);
  }

  /** A window that a flush erases is complete: whatever is added later, nothing is ever accepted for any
      of its batches. */
  lemma ErasedWindowsAreFinal(c: Limits, s: Stored, later: seq<Event>, i: nat, b: nat)
    requires Inv(c, s.windows, s.log)
    requires |Pruned(s.windows)| <= i < |s.windows| && b < |s.windows[i].batches|
    ensures TotalAt(Run(c, s, [Flush] + later).log, s.windows[i].first + b) == s.windows[i].batches[b]
  {
    PrunedInv(c, s.windows, s.log);
    RunInv(c, s, [Flush] + later);
  }

  // ----- which windows are stored

  /** Where the windows opened by a run start, newest first, given those opened before it. */
  ghost function Opened(c: Limits, before: seq<int>, events: seq<Event>): seq<int>
    decreases events
  {
    if events == [] then before else Opened(c, OpenedBy(c, before, events[0]), events[1..])
  }

  /** A document opens a window, half a window before it, if it lies past the newest one. */
  ghost function OpenedBy(c: Limits, before: seq<int>, e: Event): seq<int> {
    if e.Add? && (before == [] || before[0] + c.size <= e.slot) then [e.slot - c.size / 2] + before else before
  }

  /** The stored windows are the newest of those opened, and one that is gone was pushed out by the limit or
      shares no batch with the newest. */
  ghost predicate Newest(c: Limits, windows: seq<GridWindow>, starts: seq<int>) {
    && |windows| <= |starts| && (windows == [] ==> starts == [])
    && (forall i :: 0 <= i < |windows| ==> windows[i].first == starts[i])
    && (forall i :: |windows| <= i < |starts| ==> i >= c.maxStored || starts[i] + c.size <= starts[0])
  }

  lemma GrowOpens(c: Limits, windows: seq<GridWindow>, log: seq<Doc>, starts: seq<int>, d: nat, r: nat, slot: int)
    requires Inv(c, windows, log) && Newest(c, windows, starts)
    ensures Newest(c, Grow(c, windows, slot), OpenedBy(c, starts, Add(d, r, slot)))
  {
    var grown, now := Grow(c, windows, slot), OpenedBy(c, starts, Add(d, r, slot));
    if now != starts {
      forall i | 0 <= i < |grown| ensures grown[i].first == now[i] {
        assert i > 0 ==> grown[i] == windows[i - 1] && now[i] == starts[i - 1];
      }
      forall i | |grown| <= i < |now| ensures i >= c.maxStored || now[i] + c.size <= now[0] {
        assert now[i] == starts[i - 1];
      }
    }
  }

  lemma AddKeepsFirsts(c: Limits, windows: seq<GridWindow>, log: seq<Doc>, starts: seq<int>, d: nat, r: nat,
                       slot: int)
    requires Inv(c, windows, log) && Newest(c, windows, starts)
    ensures Newest(c, AddToAll(windows, d, r, slot), starts)
  {
    if Accepts(windows, slot) {
      AddReachesAll(c.size, windows, d, r, slot);
    }
  }

  lemma StepOpens(c: Limits, s: Stored, starts: seq<int>, e: Event)
    requires Inv(c, s.windows, s.log) && Newest(c, s.windows, starts)
    ensures Newest(c, Step(c, s, e).windows, OpenedBy(c, starts, e))
  {
    match e
    case Add(d, r, slot) =>
      GrowInv(c, s.windows, s.log, slot);
      GrowOpens(c, s.windows, s.log, starts, d, r, slot);
      AddKeepsFirsts(c, Grow(c, s.windows, slot), s.log, OpenedBy(c, starts, e), d, r, slot);
    case Flush =>
      if s.windows != [] {
        PrunedInv(c, s.windows, s.log);
      }
  }

  lemma {:induction false} RunOpens(c: Limits, s: Stored, starts: seq<int>, events: seq<Event>)
    requires Inv(c, s.windows, s.log) && Newest(c, s.windows, starts)
    ensures Newest(c, Run(c, s, events).windows, Opened(c, starts, events))
    decreases events
  {
    if events != [] {
      StepOpens(c, s, starts, events[0]);
      StepInv(c, s, events[0]);
      RunOpens(c, Step(c, s, events[0]), OpenedBy(c, starts, events[0]), events[1..]);
    }
  }

  /** After every run the stored windows are the newest of all that were opened; an older one is missing only
      when as many newer ones as fit have been opened since or when it shares no batch with the newest. */
  lemma NewestAreStored(c: Limits, events: seq<Event>)
    requires c.Valid()
    ensures Newest(c, Run(c, START, events).windows, Opened(c, [], events))
  {
    RunOpens(c, START, [], events);
  }

  lemma StepCounts(c: Limits, s: Stored, starts: seq<int>, e: Event)
    requires Inv(c, s.windows, s.log) && Newest(c, s.windows, starts) && e.Add?
    requires |s.windows| == if |starts| < c.maxStored then |starts| else c.maxStored
    ensures var now := OpenedBy(c, starts, e);
            |Step(c, s, e).windows| == if |now| < c.maxStored then |now| else c.maxStored
  {
    GrowInv(c, s.windows, s.log, e.slot);
    AddInv(c, Grow(c, s.windows, e.slot), s.log, e.d, e.r, e.slot);
  }

  lemma {:induction false} RunCounts(c: Limits, s: Stored, starts: seq<int>, events: seq<Event>)
    requires Inv(c, s.windows, s.log) && Newest(c, s.windows, starts) && Flush !in events
    requires |s.windows| == if |starts| < c.maxStored then |starts| else c.maxStored
    ensures var now := Opened(c, starts, events);
            |Run(c, s, events).windows| == if |now| < c.maxStored then |now| else c.maxStored
    decreases events
  {
    if events != [] {
      assert events[0] in events;
      StepCounts(c, s, starts, events[0]);
      StepOpens(c, s, starts, events[0]);
      StepInv(c, s, events[0]);
      RunCounts(c, Step(c, s, events[0]), OpenedBy(c, starts, events[0]), events[1..]);
    }
  }

  /** Without a flush exactly as many are stored as were opened, up to the limit. */
  lemma StoredUpToLimit(c: Limits, events: seq<Event>)
    requires c.Valid() && Flush !in events
    ensures var starts := |Opened(c, [], events)|;
            |Run(c, START, events).windows| == if starts < c.maxStored then starts else c.maxStored
  {
    RunCounts(c, START, [], events);
  }

  lemma {:induction false} PrunedOverlaps(windows: seq<GridWindow>)
    ensures windows != [] && Pruned(windows) != [] ==>
              Overlap(Pruned(windows)[|Pruned(windows)| - 1], windows[0])
  {
    if windows != [] && !Overlap(windows[|windows| - 1], windows[0]) {
      PrunedOverlaps(windows[..|windows| - 1]);
    }
  }

  /** A flush erases exactly the windows that share no batch with the newest. */
  lemma FlushErases(c: Limits, s: Stored, i: nat)
    requires Inv(c, s.windows, s.log) && i < |s.windows|
    ensures var after := Step(c, s, Flush).windows;
            after <= s.windows && (i < |after| <==> s.windows[0].first < s.windows[i].first + c.size)
  {
    PrunedInv(c, s.windows, s.log);
    PrunedOverlaps(s.windows);
  }
}
