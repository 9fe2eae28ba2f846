/** The worker pool as a state machine over its critical sections: any number of submitters, workers,
    spurious wake-ups, waiting readers and the destructor interleave step by step
    (jubatus/core/common/thread_pool.hpp, thread_pool.cpp). Tasks are numbered in submission order. */
module ThreadPool {

  /** Where a worker thread stands: about to lock, blocked on the condition, running its task,
      with the result written but not yet published, or returned. */
  datatype Worker = Ready | Waiting | Running(task: nat) | Publishing(task: nat) | Exited {
    predicate Awake() { Ready? || Running? || Publishing? }

    predicate Holds(t: nat) { (Running? || Publishing?) && task == t }
  }

  /** A call of future::get. */
  datatype Reader = Asking(future: nat) | Blocked(future: nat) | Got(future: nat, value: int)

  datatype Pool = Pool(
    capacity: nat,
    workers: seq<Worker>,
    queue: seq<nat>,
    produces: seq<int>,        // what the function of each submitted task returns
    dequeued: nat,             // how many tasks were handed out so far
    results: map<nat, int>,    // the ret_ fields written so far
    finished: set<nat>,        // the tasks whose finished_ flag is set
    shutdown: bool,
    joined: nat,               // how many workers the destructor has joined
    readers: seq<Reader>)

  function Initial(capacity: nat): Pool {
    Pool(capacity, [], [], [], 0, map[], {}, false, 0, [])
  }

  datatype Action =
    | Async(value: int)
    | AsyncAll(values: seq<int>)
    | Take(w: nat)
    | Call(w: nat)
    | Publish(w: nat)
    | SpuriousWake(w: nat)
    | StartGet(future: nat)
    | Check(r: nat)
    | SpuriousCheck(r: nat)
    | Shutdown
    | Join

  // ----- steps

  function NotifyAll(ws: seq<Worker>): seq<Worker> {
    seq(|ws|, w requires 0 <= w < |ws| => if ws[w].Waiting? then Ready else ws[w])
  }

  function NotifyReaders(rs: seq<Reader>, task: nat): seq<Reader> {
    seq(|rs|, r requires 0 <= r < |rs| => if rs[r] == Blocked(task) then Asking(task) else rs[r])
  }

  function Range(from: nat, to: nat): seq<nat> {
    seq(if from <= to then to - from else 0, i requires 0 <= i => from + i)
  }

  predicate Between(t: nat, from: nat, to: nat) {
    from <= t < to
  }

  /** Without worker threads the submitter runs the task itself. */
  function RunInline(p: Pool, values: seq<int>): Pool {
    var all := p.produces + values;
    p.(produces := all,
       dequeued := p.dequeued + |values|,
       results := p.results + (map t: nat | t < |all| && Between(t, |p.produces|, |all|) :: all[t]),
       finished := p.finished + (set t: nat | t < |all| && Between(t, |p.produces|, |all|)))
  }

  function Enqueue(p: Pool, values: seq<int>): Pool {
    p.(produces := p.produces + values,
       queue := p.queue + Range(|p.produces|, |p.produces| + |values|))
  }

  function DoAsync(p: Pool, value: int): Pool {
    if p.capacity == 0 then RunInline(p, [value])
    else
      var q := Enqueue(p, [value]);
      if |p.workers| < p.capacity then q.(workers := p.workers + [Ready])
      else if p.queue == [] then q.(workers := NotifyAll(p.workers))
      else q
  }

  function DoAsyncAll(p: Pool, values: seq<int>): Pool {
    if p.capacity == 0 then RunInline(p, values)
    else
      var q := Enqueue(p, values);
      var want := if p.capacity < |q.queue| then p.capacity else |q.queue|;
      var ws := p.workers + seq(if want <= |p.workers| then 0 else want - |p.workers|, _ => Ready);
      q.(workers := if p.queue == [] then NotifyAll(ws) else ws)
  }

  /** A worker's critical section: pop a task, or return on shutdown, or block. */
  function DoTake(p: Pool, w: nat): Pool
    requires w < |p.workers|
  {
    if p.queue != [] then
      p.(workers := p.workers[w := Running(p.queue[0])], queue := p.queue[1..], dequeued := p.dequeued + 1)
    else if p.shutdown then p.(workers := p.workers[w := Exited])
    else p.(workers := p.workers[w := Waiting])
  }

  predicate Enabled(p: Pool, a: Action) {
    match a
    case Async(_) => !p.shutdown
    case AsyncAll(_) => !p.shutdown
    case Take(w) => w < |p.workers| && p.workers[w].Ready?
    case Call(w) => w < |p.workers| && p.workers[w].Running? && p.workers[w].task < |p.produces|
    case Publish(w) => w < |p.workers| && p.workers[w].Publishing?
    case SpuriousWake(w) => w < |p.workers| && p.workers[w].Waiting?
    case StartGet(t) => t < |p.produces|
    case Check(r) => r < |p.readers| && p.readers[r].Asking?
    case SpuriousCheck(r) => r < |p.readers| && p.readers[r].Blocked?
    case Shutdown => !p.shutdown
    case Join => p.shutdown && p.joined < |p.workers| && p.workers[p.joined].Exited?
  }

  function Step(p: Pool, a: Action): Pool
    requires Enabled(p, a)
  {
    match a
    case Async(v) => DoAsync(p, v)
    case AsyncAll(vs) => DoAsyncAll(p, vs)
    case Take(w) => DoTake(p, w)
    case Call(w) =>
      var t := p.workers[w].task;
      p.(workers := p.workers[w := Publishing(t)], results := p.results[t := p.produces[t]])
    case Publish(w) =>
      var t := p.workers[w].task;
      p.(workers := p.workers[w := Ready], finished := p.finished + {t}, readers := NotifyReaders(p.readers, t))
    case SpuriousWake(w) => p.(workers := p.workers[w := Ready])
    case StartGet(t) => p.(readers := p.readers + [Asking(t)])
    case Check(r) =>
      var t := p.readers[r].future;
      if t in p.finished then
        p.(readers := p.readers[r := Got(t, if t in p.results then p.results[t] else 0)])
      else p.(readers := p.readers[r := Blocked(t)])
    case SpuriousCheck(r) => p.(readers := p.readers[r := Asking(p.readers[r].future)])
    case Shutdown => p.(shutdown := true, workers := NotifyAll(p.workers))
    case Join => p.(joined := p.joined + 1)
  }

  predicate CanRun(p: Pool, run: seq<Action>)
    decreases run
  {
    run == [] || (Enabled(p, run[0]) && CanRun(Step(p, run[0]), run[1..]))
  }

  function After(p: Pool, run: seq<Action>): Pool
    requires CanRun(p, run)
    decreases run
  {
    if run == [] then p else After(Step(p, run[0]), run[1..])
  }

  // ----- the invariant

  /** A queued task always finds somebody who will look at the queue. */
  ghost predicate NoLostWakeup(p: Pool) {
    p.queue != [] ==> exists w :: 0 <= w < |p.workers| && p.workers[w].Awake()
  }

  ghost predicate Threads(p: Pool) {
    && |p.workers| <= p.capacity
    && p.dequeued <= |p.produces| && p.queue == Range(p.dequeued, |p.produces|)
    && (forall w :: 0 <= w < |p.workers| && p.workers[w].Exited? ==> p.shutdown && p.queue == [])
    && (forall w :: 0 <= w < |p.workers| && p.workers[w].Waiting? ==> !p.shutdown)
    && p.joined <= |p.workers| && (forall w :: 0 <= w < p.joined ==> p.workers[w].Exited?)
  }

  /** Every task handed out is held by exactly one worker or is finished. */
  ghost predicate OneOwner(p: Pool) {
    && (forall t :: t in p.finished ==> t < p.dequeued)
    && (forall w :: 0 <= w < |p.workers| && (p.workers[w].Running? || p.workers[w].Publishing?) ==>
          p.workers[w].task < p.dequeued && p.workers[w].task !in p.finished)
    && (forall w, v, t :: 0 <= w < v < |p.workers| && p.workers[w].Holds(t) ==> !p.workers[v].Holds(t))
    && (forall t :: 0 <= t < p.dequeued && t !in p.finished ==>
          exists w :: 0 <= w < |p.workers| && p.workers[w].Holds(t))
  }

  ghost predicate Values(p: Pool) {
    && (forall t :: t in p.results ==> t < |p.produces| && p.results[t] == p.produces[t])
    && (forall t :: t in p.finished ==> t in p.results)
    && (forall w :: 0 <= w < |p.workers| && p.workers[w].Publishing? ==> p.workers[w].task in p.results)
  }

  ghost predicate Readers(p: Pool) {
    forall r :: 0 <= r < |p.readers| ==>
      && p.readers[r].future < |p.produces|
      && (p.readers[r].Blocked? ==> p.readers[r].future !in p.finished)
      && (p.readers[r].Got? ==> p.readers[r].future in p.finished
                                && p.readers[r].value == p.produces[p.readers[r].future])
  }

  ghost predicate Inv(p: Pool) {
    NoLostWakeup(p) && Threads(p) && OneOwner(p) && Values(p) && Readers(p)
  }

  lemma InitialInv(capacity: nat)
    ensures Inv(Initial(capacity))
  {
  }

  lemma InlineInv(p: Pool, values: seq<int>)
    requires Inv(p) && p.capacity == 0
    ensures Inv(RunInline(p, values))
  {
    var q := RunInline(p, values);
    assert p.workers == [] && p.queue == [] && p.dequeued == |p.produces|;
    forall t | 0 <= t < q.dequeued ensures t in q.finished {
      assert t in p.finished || Between(t, |p.produces|, |q.produces|);
    }
  }

  /** Only blocked workers change, and only to ready; new workers are ready. */
  ghost predicate Woken(p: Pool, ws: seq<Worker>) {
    && |p.workers| <= |ws|
    && (forall w :: 0 <= w < |p.workers| ==> ws[w] == p.workers[w] || (p.workers[w].Waiting? && ws[w].Ready?))
    && (forall w :: |p.workers| <= w < |ws| ==> ws[w].Ready?)
  }

  lemma WokenOwners(p: Pool, values: seq<int>, ws: seq<Worker>)
    requires OneOwner(p) && Woken(p, ws)
    ensures OneOwner(Enqueue(p, values).(workers := ws))
  {
    forall t | 0 <= t < p.dequeued && t !in p.finished
      ensures exists w :: 0 <= w < |ws| && ws[w].Holds(t)
    {
      var w :| 0 <= w < |p.workers| && p.workers[w].Holds(t);
      assert ws[w].Holds(t);
    }
  }

  lemma EnqueueThreads(p: Pool, values: seq<int>, ws: seq<Worker>)
    requires Threads(p) && !p.shutdown && Woken(p, ws) && |ws| <= p.capacity
    ensures Threads(Enqueue(p, values).(workers := ws))
  {
    RangeJoin(p.dequeued, |p.produces|, |p.produces| + |values|);
  }

  lemma EnqueueWakes(p: Pool, values: seq<int>, ws: seq<Worker>)
    requires NoLostWakeup(p) && Woken(p, ws)
    requires p.queue == [] && values != [] ==> exists w :: 0 <= w < |ws| && ws[w].Awake()
    ensures NoLostWakeup(Enqueue(p, values).(workers := ws))
  {
    if p.queue != [] {
      var w :| 0 <= w < |p.workers| && p.workers[w].Awake();
      assert ws[w].Awake();
    }
  }

  /** Submitting keeps the invariant as long as the new threads and the notification leave someone awake. */
  lemma EnqueueInv(p: Pool, values: seq<int>, ws: seq<Worker>)
    requires Inv(p) && !p.shutdown && Woken(p, ws) && |ws| <= p.capacity
    requires p.queue == [] && values != [] ==> exists w :: 0 <= w < |ws| && ws[w].Awake()
    ensures Inv(Enqueue(p, values).(workers := ws))
  {
    WokenOwners(p, values, ws);
    EnqueueThreads(p, values, ws);
    EnqueueWakes(p, values, ws);
  }

  lemma AsyncInv(p: Pool, value: int)
    requires Inv(p) && !p.shutdown
    ensures Inv(DoAsync(p, value))
  {
    if p.capacity == 0 {
      InlineInv(p, [value]);
    } else {
      var ws := DoAsync(p, value).workers;
      assert |p.workers| < p.capacity ==> ws[|p.workers|].Awake();
      assert |p.workers| == p.capacity && p.queue == [] ==> ws[0].Awake();
      EnqueueInv(p, [value], ws);
    }
  }

  lemma AsyncAllInv(p: Pool, values: seq<int>)
    requires Inv(p) && !p.shutdown
    ensures Inv(DoAsyncAll(p, values))
  {
    if p.capacity == 0 {
      InlineInv(p, values);
    } else {
      var ws := DoAsyncAll(p, values).workers;
      assert p.queue == [] && values != [] ==> ws[0].Awake();
      EnqueueInv(p, values, ws);
    }
  }

  lemma PopOwner(p: Pool, w: nat)
    requires OneOwner(p) && Enabled(p, Take(w)) && p.queue != [] && p.queue[0] == p.dequeued
    ensures OneOwner(DoTake(p, w))
  {
    var q := DoTake(p, w);
    assert q.workers[w].Holds(p.dequeued);
    Moved(p, q, w);
  }

  lemma PopInv(p: Pool, w: nat)
    requires Inv(p) && Enabled(p, Take(w)) && p.queue != []
    ensures Inv(DoTake(p, w))
  {
    var q := DoTake(p, w);
    assert p.queue[0] == p.dequeued && q.queue == Range(q.dequeued, |q.produces|);
    assert q.workers[w].Awake();
    PopOwner(p, w);
  }

  lemma TakeInv(p: Pool, w: nat)
    requires Inv(p) && Enabled(p, Take(w))
    ensures Inv(DoTake(p, w))
  {
    if p.queue != [] {
      PopInv(p, w);
    } else {
      Moved(p, DoTake(p, w), w);
    }
  }

  /** One worker moves on and the tasks held by all others stay where they are. */
  lemma Moved(p: Pool, q: Pool, w: nat)
    requires OneOwner(p) && w < |p.workers| == |q.workers|
    requires forall v :: 0 <= v < |p.workers| && v != w ==> q.workers[v] == p.workers[v]
    requires forall t :: p.workers[w].Holds(t) ==> q.workers[w].Holds(t) || t in q.finished
    requires forall t :: t in p.finished ==> t in q.finished
    ensures forall t :: 0 <= t < p.dequeued && t !in q.finished ==>
              exists v :: 0 <= v < |q.workers| && q.workers[v].Holds(t)
  {
    forall t | 0 <= t < p.dequeued && t !in q.finished
      ensures exists v :: 0 <= v < |q.workers| && q.workers[v].Holds(t)
    {
      var v :| 0 <= v < |p.workers| && p.workers[v].Holds(t);
      assert q.workers[v].Holds(t);
    }
  }

  lemma CallOwner(p: Pool, w: nat)
    requires OneOwner(p) && Enabled(p, Call(w))
    ensures OneOwner(Step(p, Call(w)))
  {
    assert p.workers[w].Holds(p.workers[w].task);
    Moved(p, Step(p, Call(w)), w);
  }

  lemma CallValues(p: Pool, w: nat)
    requires Values(p) && Readers(p) && Enabled(p, Call(w))
    ensures Values(Step(p, Call(w))) && Readers(Step(p, Call(w)))
  {
  }

  lemma CallInv(p: Pool, w: nat)
    requires Inv(p) && Enabled(p, Call(w))
    ensures Inv(Step(p, Call(w)))
  {
    CallOwner(p, w);
    CallValues(p, w);
    assert Step(p, Call(w)).workers[w].Awake();
  }

  lemma PublishOwner(p: Pool, w: nat)
    requires OneOwner(p) && Enabled(p, Publish(w))
    ensures OneOwner(Step(p, Publish(w)))
  {
    assert p.workers[w].Holds(p.workers[w].task);
    Moved(p, Step(p, Publish(w)), w);
  }

  lemma PublishInv(p: Pool, w: nat)
    requires Inv(p) && Enabled(p, Publish(w))
    ensures Inv(Step(p, Publish(w)))
  {
    PublishOwner(p, w);
    assert Step(p, Publish(w)).workers[w].Awake();
  }

  lemma SpuriousWakeInv(p: Pool, w: nat)
    requires Inv(p) && Enabled(p, SpuriousWake(w))
    ensures Inv(Step(p, SpuriousWake(w)))
  {
    var q := Step(p, SpuriousWake(w));
    Moved(p, q, w);
    assert q.workers[w].Awake();
  }

  lemma QuietReaders(p: Pool, a: Action)
    requires Readers(p) && Values(p) && Enabled(p, a) && (a.StartGet? || a.Check? || a.SpuriousCheck? || a.Join?)
    ensures Readers(Step(p, a))
  {
  }

  lemma OtherReaders(p: Pool, readers: seq<Reader>, joined: nat)
    requires Inv(p) && Readers(p.(readers := readers))
    requires joined <= |p.workers| && forall w :: 0 <= w < joined ==> p.workers[w].Exited?
    ensures Inv(p.(readers := readers, joined := joined))
  {
  }

  /** Steps that leave workers, queue and tasks alone. */
  lemma QuietInv(p: Pool, a: Action)
    requires Inv(p) && Enabled(p, a) && (a.StartGet? || a.Check? || a.SpuriousCheck? || a.Join?)
    ensures Inv(Step(p, a))
  {
    QuietReaders(p, a);
    var q := Step(p, a);
    OtherReaders(p, q.readers, q.joined);
  }

  lemma ShutdownInv(p: Pool)
    requires Inv(p) && !p.shutdown
    ensures Inv(Step(p, Shutdown))
  {
    var ws := NotifyAll(p.workers);
    EnqueueInv(p, [], ws);
    assert p.queue + Range(|p.produces|, |p.produces|) == p.queue;
    assert Enqueue(p, []).(workers := ws) == p.(workers := ws);
  }

  lemma StepInv(p: Pool, a: Action)
    requires Inv(p) && Enabled(p, a)
    ensures Inv(Step(p, a))
  {
    match a
    case Async(v) => AsyncInv(p, v);
    case AsyncAll(vs) => AsyncAllInv(p, vs);
    case Take(w) => TakeInv(p, w);
    case Call(w) => CallInv(p, w);
    case Publish(w) => PublishInv(p, w);
    case SpuriousWake(w) => SpuriousWakeInv(p, w);
    case Shutdown => ShutdownInv(p);
    case _ => QuietInv(p, a);
  }

  lemma {:induction false} RunInv(p: Pool, run: seq<Action>)
    requires Inv(p) && CanRun(p, run)
    ensures Inv(After(p, run))
    decreases run
  {
    if run != [] {
      StepInv(p, run[0]);
      RunInv(Step(p, run[0]), run[1..]);
    }
  }

  // ----- what holds over all interleavings

  predicate IsWork(a: Action) {
    a.Take? || a.Call? || a.Publish?
  }

  /** In every interleaving, while a task is queued some worker is not blocked and can make its next step. */
  lemma WakeupsAreNotLost(capacity: nat, run: seq<Action>) returns (a: Action)
    requires CanRun(Initial(capacity), run) && After(Initial(capacity), run).queue != []
    ensures IsWork(a) && Enabled(After(Initial(capacity), run), a)
  {
    InitialInv(capacity);
    RunInv(Initial(capacity), run);
    var p := After(Initial(capacity), run);
    var w :| 0 <= w < |p.workers| && p.workers[w].Awake();
    a := match p.workers[w] case Ready => Take(w) case Running(_) => Call(w) case _ => Publish(w);
  }

  function TakenBy(p: Pool, a: Action): seq<nat> {
    if a.Take? && p.queue != [] then [p.queue[0]] else []
  }

  /** The tasks handed to workers by the Take steps of a run. */
  function Taken(p: Pool, run: seq<Action>): seq<nat>
    requires CanRun(p, run)
    decreases run
  {
    if run == [] then []
    else TakenBy(p, run[0]) + Taken(Step(p, run[0]), run[1..])
  }

  lemma StepDequeues(p: Pool, a: Action)
    requires Inv(p) && 0 < p.capacity && Enabled(p, a)
    ensures Step(p, a).dequeued == p.dequeued + if a.Take? && p.queue != [] then 1 else 0
    ensures Step(p, a).capacity == p.capacity
    ensures p.queue != [] ==> p.queue[0] == p.dequeued
  {
  }

  lemma RangeFirst(from: nat, to: nat)
    requires from < to
    ensures Range(from, to) == [from] + Range(from + 1, to)
  {
  }

  lemma TakenUnfolds(p: Pool, run: seq<Action>, q: Pool)
    requires CanRun(p, run) && run != [] && q == Step(p, run[0])
    ensures After(p, run) == After(q, run[1..]) && Taken(p, run) == TakenBy(p, run[0]) + Taken(q, run[1..])
  {
  }

  lemma RangeStep(front: seq<nat>, from: nat, next: nat, to: nat)
    requires next <= to && front == if next == from then [] else [from]
    requires next == from || next == from + 1
    ensures front + Range(next, to) == Range(from, to)
  {
    if next > from {
      RangeFirst(from, to);
    }
  }

  lemma {:induction false} TakenFrom(p: Pool, run: seq<Action>)
    requires Inv(p) && 0 < p.capacity && CanRun(p, run)
    ensures p.dequeued <= After(p, run).dequeued
    ensures Taken(p, run) == Range(p.dequeued, After(p, run).dequeued)
    decreases run
  {
    if run != [] {
      var q := Step(p, run[0]);
      StepInv(p, run[0]);
      StepDequeues(p, run[0]);
      TakenFrom(q, run[1..]);
      TakenUnfolds(p, run, q);
      RangeStep(TakenBy(p, run[0]), p.dequeued, q.dequeued, After(p, run).dequeued);
    }
  }

  /** Workers get every task exactly once and in submission order. */
  lemma SubmissionOrder(capacity: nat, run: seq<Action>)
    requires 0 < capacity && CanRun(Initial(capacity), run)
    ensures var p := After(Initial(capacity), run);
            Taken(Initial(capacity), run) + p.queue == Range(0, |p.produces|)
  {
    InitialInv(capacity);
    TakenFrom(Initial(capacity), run);
    RunInv(Initial(capacity), run);
    RangeJoin(0, After(Initial(capacity), run).dequeued, |After(Initial(capacity), run).produces|);
  }

  lemma RangeJoin(a: nat, b: nat, c: nat)
    requires a <= b <= c
    ensures Range(a, b) + Range(b, c) == Range(a, c)
  {
  }

  /** A value returned by get is the one the task's function produced, and nobody waits for a finished task. */
  lemma GetReturnsTheResult(capacity: nat, run: seq<Action>, r: nat)
    requires CanRun(Initial(capacity), run) && r < |After(Initial(capacity), run).readers|
    ensures var p := After(Initial(capacity), run);
            && (p.readers[r].Got? ==> p.readers[r].future < |p.produces|
                                      && p.readers[r].value == p.produces[p.readers[r].future])
            && (p.readers[r].Blocked? ==> p.readers[r].future !in p.finished)
  {
    InitialInv(capacity);
    RunInv(Initial(capacity), run);
  }

  /** A worker returns only after shutdown and with an empty queue. */
  lemma ExitsOnlyWhenDrained(capacity: nat, run: seq<Action>, w: nat)
    requires CanRun(Initial(capacity), run) && w < |After(Initial(capacity), run).workers|
    ensures var p := After(Initial(capacity), run);
            p.workers[w].Exited? ==> p.shutdown && p.queue == []
  {
    InitialInv(capacity);
    RunInv(Initial(capacity), run);
  }

  lemma AllExitedAllDone(p: Pool)
    requires Inv(p) && forall w :: 0 <= w < |p.workers| ==> p.workers[w].Exited?
    ensures p.queue == [] && forall t :: 0 <= t < |p.produces| ==> t in p.finished
  {
    assert |p.queue| == |p.produces| - p.dequeued;
  }

  /** Once the destructor has joined every worker, every task ever submitted has run and published its result. */
  lemma DestructorRunsEverything(capacity: nat, run: seq<Action>)
    requires CanRun(Initial(capacity), run)
    requires var p := After(Initial(capacity), run); p.joined == |p.workers|
    ensures var p := After(Initial(capacity), run);
            p.queue == [] && forall t :: 0 <= t < |p.produces| ==>
                t in p.finished && t in p.results && p.results[t] == p.produces[t]
  {
    InitialInv(capacity);
    RunInv(Initial(capacity), run);
    AllExitedAllDone(After(Initial(capacity), run));
  }

  // ----- shutdown terminates

  function Weight(w: Worker): nat {
    match w case Ready => 1 case Waiting => 1 case Running(_) => 3 case Publishing(_) => 2 case Exited => 0
  }

  function TotalWeight(ws: seq<Worker>): nat {
    if ws == [] then 0 else Weight(ws[0]) + TotalWeight(ws[1..])
  }

  /** An upper bound on the worker steps still possible after shutdown. */
  function WorkLeft(p: Pool): nat {
    3 * |p.queue| + TotalWeight(p.workers)
  }

  lemma {:induction false} WeightAfterUpdate(ws: seq<Worker>, w: nat, x: Worker)
    requires w < |ws|
    ensures TotalWeight(ws[w := x]) == TotalWeight(ws) - Weight(ws[w]) + Weight(x)
  {
    if w == 0 {
      assert ws[w := x][1..] == ws[1..];
    } else {
      assert ws[w := x][1..] == ws[1..][w - 1 := x];
      WeightAfterUpdate(ws[1..], w - 1, x);
    }
  }

  /** The steps of workers among all steps of a run. */
  function WorkSteps(run: seq<Action>): nat {
    if run == [] then 0 else (if IsWork(run[0]) then 1 else 0) + WorkSteps(run[1..])
  }

  /** After shutdown a worker's step uses up work; joins and the steps of readers leave it alone, and nobody
      is blocked who could wake up. */
  lemma StepUsesWork(p: Pool, a: Action)
    requires Inv(p) && p.shutdown && Enabled(p, a)
    ensures var q := Step(p, a);
            q.shutdown && |q.workers| == |p.workers|
            && (if IsWork(a) then WorkLeft(q) < WorkLeft(p) else WorkLeft(q) == WorkLeft(p))
  {
    if IsWork(a) {
      var q := Step(p, a);
      WeightAfterUpdate(p.workers, a.w, q.workers[a.w]);
      assert q.workers == p.workers[a.w := q.workers[a.w]];
    }
  }

  lemma {:induction false} WorkIsBounded(p: Pool, run: seq<Action>)
    requires Inv(p) && p.shutdown && CanRun(p, run)
    ensures WorkSteps(run) + WorkLeft(After(p, run)) <= WorkLeft(p) && After(p, run).shutdown
    ensures |After(p, run).workers| == |p.workers|
    decreases run
  {
    if run != [] {
      StepUsesWork(p, run[0]);
      StepInv(p, run[0]);
      WorkIsBounded(Step(p, run[0]), run[1..]);
    }
  }

  ghost predicate NoWorkEnabled(p: Pool) {
    forall a :: IsWork(a) ==> !Enabled(p, a)
  }

  /** In any run after shutdown, whatever joins and readers do in between, the workers make at most WorkLeft(p)
      steps, and they only stop making them when all have returned, the queue is empty and every submitted
      task is finished. */
  lemma ShutdownDrains(p: Pool, run: seq<Action>)
    requires Inv(p) && p.shutdown && CanRun(p, run)
    ensures WorkSteps(run) <= WorkLeft(p)
    ensures NoWorkEnabled(After(p, run)) ==>
      var q := After(p, run);
      && (forall w :: 0 <= w < |q.workers| ==> q.workers[w].Exited?)
      && q.queue == [] && (forall t :: 0 <= t < |q.produces| ==> t in q.finished)
  {
    WorkIsBounded(p, run);
    RunInv(p, run);
    var q := After(p, run);
    if NoWorkEnabled(q) {
      forall w | 0 <= w < |q.workers| ensures q.workers[w].Exited? {
        assert !Enabled(q, Take(w)) && !Enabled(q, Call(w)) && !Enabled(q, Publish(w));
      }
      AllExitedAllDone(q);
    }
  }

  // ----- when the workers rest

  lemma NobodyAwake(p: Pool, w: nat)
    requires Inv(p) && NoWorkEnabled(p) && w < |p.workers|
    ensures !p.workers[w].Awake()
  {
    assert !Enabled(p, Take(w)) && !Enabled(p, Call(w)) && !Enabled(p, Publish(w));
  }

  /** With or without shutdown, no worker has a step left only when nothing is queued and every submitted task
      is finished with the value its function produced. */
  lemma RestMeansDone(capacity: nat, run: seq<Action>)
    requires CanRun(Initial(capacity), run) && NoWorkEnabled(After(Initial(capacity), run))
    ensures var p := After(Initial(capacity), run);
            p.queue == [] && forall t :: 0 <= t < |p.produces| ==>
                t in p.finished && t in p.results && p.results[t] == p.produces[t]
  {
    InitialInv(capacity);
    RunInv(Initial(capacity), run);
    var p := After(Initial(capacity), run);
    forall w | 0 <= w < |p.workers| ensures !p.workers[w].Awake() { NobodyAwake(p, w); }
    assert |p.queue| == |p.produces| - p.dequeued;
  }

  // ----- sleeping beside a queue

  /** While a task is queued, no worker is blocked. */
  ghost predicate NoSleeper(p: Pool) {
    p.queue != [] ==> forall w :: 0 <= w < |p.workers| ==> !p.workers[w].Waiting?
  }

  /** A submission that starts a thread although some worker is blocked: it notifies nobody. */
  ghost predicate Overlooks(p: Pool, a: Action) {
    && a.Async? && |p.workers| < p.capacity && p.queue == []
    && exists w :: 0 <= w < |p.workers| && p.workers[w].Waiting?
  }

  lemma AsyncSleeper(p: Pool, value: int)
    requires Inv(p) && NoSleeper(p)
    ensures NoSleeper(DoAsync(p, value)) <==> !Overlooks(p, Async(value))
  {
    var q := DoAsync(p, value);
    if Overlooks(p, Async(value)) {
      var w :| 0 <= w < |p.workers| && p.workers[w].Waiting?;
      assert q.workers[w].Waiting? && |q.queue| == 1;
    }
  }

  /** A step leaves a worker blocked beside a queued task if and only if it is such a submission. */
  lemma SleeperIff(p: Pool, a: Action)
    requires Inv(p) && NoSleeper(p) && Enabled(p, a)
    ensures NoSleeper(Step(p, a)) <==> !Overlooks(p, a)
  {
    if a.Async? {
      AsyncSleeper(p, a.value);
    }
  }

  ghost predicate NeverOverlooks(p: Pool, run: seq<Action>)
    requires CanRun(p, run)
    decreases run
  {
    run == [] || (!Overlooks(p, run[0]) && NeverOverlooks(Step(p, run[0]), run[1..]))
  }

  /** In no state of the run a worker sleeps while a task is queued. */
  ghost predicate NeverSleeps(p: Pool, run: seq<Action>)
    requires CanRun(p, run)
    decreases run
  {
    NoSleeper(p) && (run != [] ==> NeverSleeps(Step(p, run[0]), run[1..]))
  }

  /** That is so in exactly the runs without such submissions. */
  lemma {:induction false} NobodySleepsIff(p: Pool, run: seq<Action>)
    requires Inv(p) && NoSleeper(p) && CanRun(p, run)
    ensures NeverSleeps(p, run) <==> NeverOverlooks(p, run)
    ensures NeverSleeps(p, run) ==> NoSleeper(After(p, run))
    decreases run
  {
    if run != [] {
      SleeperIff(p, run[0]);
      StepInv(p, run[0]);
      if NoSleeper(Step(p, run[0])) {
        NobodySleepsIff(Step(p, run[0]), run[1..]);
      }
    }
  }

  lemma {:induction false} RunMore(p: Pool, run: seq<Action>, a: Action)
    requires CanRun(p, run) && Enabled(After(p, run), a)
    ensures CanRun(p, run + [a]) && After(p, run + [a]) == Step(After(p, run), a)
    decreases run
  {
    if run == [] {
      assert ([] + [a])[1..] == [];
      assert After(Step(p, a), []) == Step(p, a);
    } else {
      assert (run + [a])[1..] == run[1..] + [a];
      RunMore(Step(p, run[0]), run[1..], a);
    }
  }

  lemma NobodySleepsFromStart(capacity: nat, run: seq<Action>)
    requires CanRun(Initial(capacity), run)
    ensures NeverSleeps(Initial(capacity), run) <==> NeverOverlooks(Initial(capacity), run)
    ensures NeverOverlooks(Initial(capacity), run) ==> NoSleeper(After(Initial(capacity), run))
  {
    InitialInv(capacity);
    NobodySleepsIff(Initial(capacity), run);
  }

  /** All submitted tasks were handed out, and the pool has room for one more thread. */
  ghost predicate Quiet(p: Pool, idle: nat) {
    && p.queue == [] && p.dequeued == |p.produces| && !p.shutdown && p.readers == [] && idle < p.capacity
    && |p.workers| == idle && forall w :: 0 <= w < idle ==> p.workers[w].Waiting?
  }

  lemma StartsAndTakes(p: Pool, idle: nat, value: int) returns (q: Pool)
    requires Quiet(p, idle)
    ensures Enabled(p, Async(value)) && Enabled(Step(p, Async(value)), Take(idle))
    ensures q == Step(Step(p, Async(value)), Take(idle)) && q.workers == p.workers + [Running(|p.produces|)]
    ensures q.queue == [] && q.dequeued == |q.produces| && q.produces == p.produces + [value]
    ensures q.capacity == p.capacity && !q.shutdown && q.readers == []
  {
    var started := Step(p, Async(value));
    assert started.workers == p.workers + [Ready] && started.queue == [|p.produces|];
    q := Step(started, Take(idle));
  }

  lemma FinishesAndWaits(p: Pool, idle: nat)
    requires idle + 1 == |p.workers| && p.workers[idle].Running? && p.workers[idle].task < |p.produces|
    requires p.queue == [] && !p.shutdown && p.readers == []
    ensures Enabled(p, Call(idle)) && Enabled(Step(p, Call(idle)), Publish(idle))
    ensures var q := Step(Step(p, Call(idle)), Publish(idle));
            Enabled(q, Take(idle)) && Step(q, Take(idle)).workers == p.workers[idle := Waiting]
            && Step(q, Take(idle)).queue == [] && Step(q, Take(idle)).produces == p.produces
            && Step(q, Take(idle)).dequeued == p.dequeued && !Step(q, Take(idle)).shutdown
            && Step(q, Take(idle)).readers == [] && Step(q, Take(idle)).capacity == p.capacity
  {
  }

  /** Each task submitted to a quiet pool with room starts a thread, which afterwards waits. */
  lemma OneMoreIdle(capacity: nat, run: seq<Action>, idle: nat, value: int) returns (longer: seq<Action>)
    requires CanRun(Initial(capacity), run) && Quiet(After(Initial(capacity), run), idle)
    ensures CanRun(Initial(capacity), longer)
    ensures idle + 1 < capacity ==> Quiet(After(Initial(capacity), longer), idle + 1)
  {
    var start, p := Initial(capacity), After(Initial(capacity), run);
    CapacityStays(start, run);
    var q := StartsAndTakes(p, idle, value);
    FinishesAndWaits(q, idle);
    RunMore(start, run, Async(value));
    longer := run + [Async(value)];
    RunMore(start, longer, Take(idle));
    longer := longer + [Take(idle)];
    RunMore(start, longer, Call(idle));
    longer := longer + [Call(idle)];
    RunMore(start, longer, Publish(idle));
    longer := longer + [Publish(idle)];
    RunMore(start, longer, Take(idle));
    longer := longer + [Take(idle)];
  }

  lemma {:induction false} CapacityStays(p: Pool, run: seq<Action>)
    requires CanRun(p, run)
    ensures After(p, run).capacity == p.capacity
    decreases run
  {
    if run != [] {
      CapacityStays(Step(p, run[0]), run[1..]);
    }
  }

  /** A reachable state in which a task waits for a busy worker although two others sleep: two threads wait,
      a task starts the third, and the next one finds the queue not empty. */
  lemma IdleBesideAQueue() returns (run: seq<Action>)
    ensures CanRun(Initial(3), run)
    ensures var p := After(Initial(3), run);
            |p.workers| == 3 && p.workers[0].Waiting? && p.workers[1].Waiting? && p.workers[2].Running?
                && |p.queue| == 1
  {
    run := [];
    assert After(Initial(3), run) == Initial(3);
    run := OneMoreIdle(3, run, 0, 0);
    run := OneMoreIdle(3, run, 1, 0);
    var p := After(Initial(3), run);
    CapacityStays(Initial(3), run);
    var q := ThirdIsBusy(p);
    RunMore(Initial(3), run, Async(0));
    run := run + [Async(0)];
    RunMore(Initial(3), run, Async(0));
    run := run + [Async(0)];
    RunMore(Initial(3), run, Take(2));
    run := run + [Take(2)];
  }

  lemma ThirdIsBusy(p: Pool) returns (q: Pool)
    requires Quiet(p, 2) && p.capacity == 3
    ensures Enabled(p, Async(0)) && Enabled(Step(p, Async(0)), Async(0))
    ensures Enabled(Step(Step(p, Async(0)), Async(0)), Take(2)) && q == Step(Step(Step(p, Async(0)), Async(0)), Take(2))
    ensures |q.workers| == 3 && q.workers[0].Waiting? && q.workers[1].Waiting? && q.workers[2].Running?
              && |q.queue| == 1
  {
    var started := Step(p, Async(0));
    assert started.workers == p.workers + [Ready] && started.queue == [|p.produces|];
    var fuller := Step(started, Async(0));
    assert fuller.workers == started.workers && |fuller.queue| == 2;
    q := Step(fuller, Take(2));
  }
}
