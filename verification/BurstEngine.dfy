/** Burst detection over one window: a two-state Viterbi search with a forced start
    state, branch cutting and a reused prefix (jubatus/core/burst/engine.cpp).

    Doubles are reals, extended with one infinite value where the source uses INFINITY.
    The C library's lgamma and log are given functions; BurstLikelihood says what is asked of them. */
module BurstEngine {
  import opened BurstLikelihood

  datatype State = Base | Burst

  // ----- extended reals: a cost or a batch weight

  datatype Ext = Fin(v: real) | Inf

  function Plus(a: Ext, x: real): Ext {
    match a case Fin(v) => Fin(v + x) case Inf => Inf
  }

  predicate Greater(a: Ext, b: Ext) {
    match (a, b)
    case (_, Inf) => false
    case (Inf, _) => true
    case (Fin(x), Fin(y)) => x > y
  }

  // ----- the search problem

  datatype Params = Params(scaling: real, gamma: real, threshold: real)

  function Total(xs: seq<nat>): nat {
    if xs == [] then 0 else xs[0] + Total(xs[1..])
  }

  /** Everything the search looks at. Position i of the three sequences is batch i. */
  datatype Chain = Chain(base: seq<real>, burst: seq<real>, cut: seq<bool>, switchCost: real,
                         reuse: nat, start: State)
  {
    predicate Valid() {
      |base| == |burst| == |cut| && 0 < |base| && reuse <= |base| && (reuse == 0 ==> start == Base)
    }

    function Length(): nat
      requires Valid()
    {
      |base| - reuse
    }

    function Emit(s: State, i: nat): real
      requires i < |base| == |burst|
    {
      if s == Base then base[i] else burst[i]
    }

    function Tau(from: State, to: State): real {
      if from == Base && to == Burst then switchCost else 0.0
    }

    /** Is the batch before the k-th newly searched one forced to base? */
    predicate CutBefore(k: nat)
      requires Valid() && k <= Length()
    {
      0 < reuse + k && cut[reuse + k - 1]
    }
  }

  // ----- reference: the cost of a state sequence, front to back

  ghost function PathCost(c: Chain, from: State, path: seq<State>, i: nat): real
    requires c.Valid() && i + |path| <= |c.base|
    decreases path
  {
    if path == [] then 0.0
    else c.Tau(from, path[0]) + c.Emit(path[0], i) + PathCost(c, path[0], path[1..], i + 1)
  }

  /** What a sequence costs: all emissions plus all base-to-burst switches, from the forced start. */
  ghost function Cost(c: Chain, path: seq<State>): real
    requires c.Valid() && |path| <= c.Length()
  {
    PathCost(c, c.start, path, c.reuse)
  }

  /** The sequences the search may return: base on every cut or empty batch. */
  ghost predicate Admissible(c: Chain, path: seq<State>)
    requires c.Valid() && |path| <= c.Length()
  {
    forall i :: 0 <= i < |path| && c.cut[c.reuse + i] ==> path[i] == Base
  }

  /** The forced start state is itself allowed. */
  ghost predicate StartAllowed(c: Chain)
    requires c.Valid()
  {
    c.CutBefore(0) ==> c.start == Base
  }

  ghost function Last(c: Chain, path: seq<State>): State {
    if path == [] then c.start else path[|path| - 1]
  }

  // ----- the search

  /** An optimal cost with the state sequence that was copied along with it. */
  datatype Best = Best(cost: Ext, path: seq<State>)

  function PreviousState(c: Chain, now: State, base: Ext, burst: Ext): State {
    if Greater(Plus(base, c.Tau(Base, now)), Plus(burst, c.Tau(Burst, now))) then Burst else Base
  }

  function Extend(c: Chain, k: nat, now: State, base: Best, burst: Best): Best
    requires c.Valid() && k < c.Length()
  {
    var from := if c.CutBefore(k) then Base else PreviousState(c, now, base.cost, burst.cost);
    var kept := if from == Base then base else burst;
    Best(Plus(Plus(kept.cost, c.Tau(from, now)), c.Emit(now, c.reuse + k)), kept.path + [now])
  }

  function Initial(c: Chain, s: State): Best {
    Best(if s == c.start then Fin(0.0) else Inf, [])
  }

  /** The pair of best sequences after k batches. */
  function Search(c: Chain, k: nat): (Best, Best)
    requires c.Valid() && k <= c.Length()
  {
    if k == 0 then (Initial(c, Base), Initial(c, Burst))
    else
      var (base, burst) := Search(c, k - 1);
      (Extend(c, k - 1, Base, base, burst), Extend(c, k - 1, Burst, base, burst))
  }

  function Pick(c: Chain, base: Best, burst: Best): seq<State>
    requires c.Valid()
  {
    if c.cut[|c.cut| - 1] || !Greater(base.cost, burst.cost) then base.path else burst.path
  }

  function Chosen(c: Chain): seq<State>
    requires c.Valid()
  {
    var (base, burst) := Search(c, c.Length());
    Pick(c, base, burst)
  }

  // ----- correctness of the search

  /** The cost the search assigns: infinite as soon as a cut batch is left in the burst state. */
  ghost function SearchCost(c: Chain, path: seq<State>): Ext
    requires c.Valid() && |path| <= c.Length()
  {
    if path == [] then Fin(0.0)
    else
      var k := |path| - 1;
      var from := Last(c, path[..k]);
      if c.CutBefore(k) && from == Burst then Inf
      else Plus(Plus(SearchCost(c, path[..k]), c.Tau(from, path[k])), c.Emit(path[k], c.reuse + k))
  }

  /** `b` is the cheapest sequence of length k ending in state s, with its true search cost. */
  ghost predicate Keeps(c: Chain, k: nat, s: State, b: Best)
    requires c.Valid() && k <= c.Length()
  {
    && |b.path| == k
    && (if k == 0 && s != c.start then b.cost == Inf
        else Last(c, b.path) == s && b.cost == SearchCost(c, b.path))
    && forall path | |path| == k && Last(c, path) == s :: !Greater(b.cost, SearchCost(c, path))
  }

  lemma ExtendKeeps(c: Chain, k: nat, now: State, base: Best, burst: Best)
    requires c.Valid() && k < c.Length()
    requires Keeps(c, k, Base, base) && Keeps(c, k, Burst, burst)
    requires k == 0 ==> base == Initial(c, Base) && burst == Initial(c, Burst)
    ensures Keeps(c, k + 1, now, Extend(c, k, now, base, burst))
  {
    var b := Extend(c, k, now, base, burst);
    assert b.path[..k] + [now] == b.path;
    assert b.path[..k] == base.path || b.path[..k] == burst.path;
    forall path | |path| == k + 1 && Last(c, path) == now
      ensures !Greater(b.cost, SearchCost(c, path))
    {
      var from := Last(c, path[..k]);
      var kept := if from == Base then base else burst;
      assert !Greater(kept.cost, SearchCost(c, path[..k]));
    }
  }

  lemma SearchUnfolds(c: Chain, k: nat)
    requires c.Valid() && 0 < k <= c.Length()
    ensures var (base, burst) := Search(c, k - 1);
            Search(c, k) == (Extend(c, k - 1, Base, base, burst), Extend(c, k - 1, Burst, base, burst))
  {
  }

  lemma {:induction false} SearchKeeps(c: Chain, k: nat)
    requires c.Valid() && k <= c.Length()
    ensures Keeps(c, k, Base, Search(c, k).0)
    ensures Keeps(c, k, Burst, Search(c, k).1)
  {
    if k > 0 {
      SearchKeeps(c, k - 1);
      var (base, burst) := Search(c, k - 1);
      ExtendKeeps(c, k - 1, Base, base, burst);
      ExtendKeeps(c, k - 1, Burst, base, burst);
      SearchUnfolds(c, k);
    }
  }

  lemma {:induction false} PathCostAppend(c: Chain, from: State, path: seq<State>, s: State, i: nat)
    requires c.Valid() && i + |path| + 1 <= |c.base|
    ensures PathCost(c, from, path + [s], i)
         == PathCost(c, from, path, i) + c.Tau(if path == [] then from else path[|path| - 1], s)
            + c.Emit(s, i + |path|)
    decreases path
  {
    if path == [] {
      assert (path + [s])[1..] == [];
    } else {
      PathCostAppend(c, path[0], path[1..], s, i + 1);
      assert (path + [s])[1..] == path[1..] + [s];
    }
  }

  lemma AdmissibleAppend(c: Chain, path: seq<State>, s: State)
    requires c.Valid() && |path| < c.Length()
    ensures Admissible(c, path + [s]) <==> Admissible(c, path) && (c.cut[c.reuse + |path|] ==> s == Base)
  {
    var longer := path + [s];
    assert longer[|path|] == s;
    assert forall i :: 0 <= i < |path| ==> longer[i] == path[i];
  }

  ghost predicate FiniteCost(c: Chain, path: seq<State>)
    requires c.Valid() && |path| <= c.Length()
  {
    path != [] ==> StartAllowed(c) && Admissible(c, path[..|path| - 1])
  }

  lemma FiniteCostAppend(c: Chain, path: seq<State>, s: State)
    requires c.Valid() && |path| < c.Length()
    ensures FiniteCost(c, path + [s]) <==> FiniteCost(c, path) && (c.CutBefore(|path|) ==> Last(c, path) == Base)
  {
    assert (path + [s])[..|path|] == path;
    if path != [] {
      AdmissibleAppend(c, path[..|path| - 1], path[|path| - 1]);
      assert path[..|path| - 1] + [path[|path| - 1]] == path;
    }
  }

  /** The search cost is the reference cost, made infinite for sequences that leave a cut batch in burst. */
  lemma {:induction false} SearchCostIsCost(c: Chain, path: seq<State>)
    requires c.Valid() && |path| <= c.Length()
    ensures SearchCost(c, path) == if FiniteCost(c, path) then Fin(Cost(c, path)) else Inf
  {
    if path != [] {
      var k := |path| - 1;
      var front, s := path[..k], path[k];
      assert front + [s] == path;
      SearchCostIsCost(c, front);
      FiniteCostAppend(c, front, s);
      PathCostAppend(c, c.start, front, s, c.reuse);
    }
  }

  /** In every state some sequence has finite cost: stay base and switch last. */
  lemma SomeFinite(c: Chain, k: nat, s: State) returns (path: seq<State>)
    requires c.Valid() && 0 < k <= c.Length() && StartAllowed(c)
    ensures |path| == k && Last(c, path) == s && SearchCost(c, path).Fin?
  {
    path := seq(k - 1, _ => Base) + [s];
    assert path[..k - 1] == seq(k - 1, _ => Base);
    SearchCostIsCost(c, path);
  }

  lemma KeptWhenAllowed(c: Chain, k: nat, s: State)
    requires c.Valid() && 0 < k <= c.Length() && StartAllowed(c)
    ensures var b := if s == Base then Search(c, k).0 else Search(c, k).1;
            |b.path| == k && b.path[k - 1] == s && b.cost == Fin(Cost(c, b.path))
            && Admissible(c, b.path[..k - 1])
  {
    var b := if s == Base then Search(c, k).0 else Search(c, k).1;
    assert Keeps(c, k, s, b) by { SearchKeeps(c, k); }
    var plain := SomeFinite(c, k, s);
    assert !Greater(b.cost, SearchCost(c, plain));
    SearchCostIsCost(c, b.path);
  }

  /** Each kept per-state sequence ends in its state, and its recorded cost is its true cost, or infinite
      when the forced start is cut. */
  lemma KeptSequences(c: Chain, k: nat, s: State)
    requires c.Valid() && 0 < k <= c.Length()
    ensures var b := if s == Base then Search(c, k).0 else Search(c, k).1;
            && |b.path| == k && b.path[k - 1] == s
            && b.cost == (if StartAllowed(c) then Fin(Cost(c, b.path)) else Inf)
            && (StartAllowed(c) ==> Admissible(c, b.path[..k - 1]))
  {
    if StartAllowed(c) {
      KeptWhenAllowed(c, k, s);
    } else {
      SearchKeeps(c, k);
      BlockedStartSearch(c, k);
    }
  }

  ghost predicate Ends(c: Chain, s: State, b: Best)
    requires c.Valid() && 0 < c.Length()
  {
    && |b.path| == c.Length() && b.path[c.Length() - 1] == s
    && b.cost == Fin(Cost(c, b.path)) && Admissible(c, b.path[..c.Length() - 1])
  }

  lemma PickedOf(c: Chain, base: Best, burst: Best)
    requires c.Valid() && 0 < c.Length()
    requires Ends(c, Base, base) && Ends(c, Burst, burst)
    ensures var picked := Pick(c, base, burst);
            && |picked| == c.Length() && Admissible(c, picked)
            && !Greater(Fin(Cost(c, picked)), base.cost)
            && (c.cut[|c.cut| - 1] || !Greater(Fin(Cost(c, picked)), burst.cost))
  {
    LastAdmissible(c, Pick(c, base, burst));
  }

  lemma PickedIsKept(c: Chain)
    requires c.Valid() && StartAllowed(c) && 0 < c.Length()
    ensures |Chosen(c)| == c.Length() && Admissible(c, Chosen(c))
    ensures !Greater(Fin(Cost(c, Chosen(c))), Search(c, c.Length()).0.cost)
    ensures c.cut[|c.cut| - 1] || !Greater(Fin(Cost(c, Chosen(c))), Search(c, c.Length()).1.cost)
  {
    KeptWhenAllowed(c, c.Length(), Base);
    KeptWhenAllowed(c, c.Length(), Burst);
    PickedOf(c, Search(c, c.Length()).0, Search(c, c.Length()).1);
  }

  lemma LastAdmissible(c: Chain, path: seq<State>)
    requires c.Valid() && 0 < |path| <= c.Length()
    ensures var k := |path| - 1;
            Admissible(c, path) <==> Admissible(c, path[..k]) && (c.cut[c.reuse + k] ==> path[k] == Base)
  {
    var k := |path| - 1;
    AdmissibleAppend(c, path[..k], path[k]);
    assert path == path[..k] + [path[k]];
  }

  lemma KeptIsCheaper(c: Chain, path: seq<State>)
    requires c.Valid() && |path| == c.Length() && path != []
    ensures var kept := if Last(c, path) == Base then Search(c, |path|).0 else Search(c, |path|).1;
            !Greater(kept.cost, SearchCost(c, path))
  {
    SearchKeeps(c, |path|);
  }

  /** For an allowed start: the chosen sequence is base on every cut batch, and is cheapest among all such sequences. */
  lemma ChosenIsOptimal(c: Chain, path: seq<State>)
    requires c.Valid() && StartAllowed(c)
    requires |path| == c.Length() && Admissible(c, path)
    ensures |Chosen(c)| == c.Length() && Admissible(c, Chosen(c))
    ensures Cost(c, Chosen(c)) <= Cost(c, path)
  {
    var n := c.Length();
    if n == 0 {
      assert path == [] == Chosen(c);
    } else {
      PickedIsKept(c);
      assert SearchCost(c, path) == Fin(Cost(c, path)) by {
        SearchCostIsCost(c, path);
        assert Admissible(c, path[..n - 1]);
      }
      KeptIsCheaper(c, path);
    }
  }

  lemma {:induction false} BlockedStartSearch(c: Chain, k: nat)
    requires c.Valid() && 0 < k <= c.Length() && !StartAllowed(c)
    ensures Search(c, k).0 == Best(Inf, seq(k, _ => Base)) && Search(c, k).1.cost == Inf
  {
    if k > 1 {
      BlockedStartSearch(c, k - 1);
      assert seq(k - 1, _ => Base) + [Base] == seq(k, _ => Base);
    } else {
      assert Search(c, 0) == (Initial(c, Base), Initial(c, Burst));
      assert [] + [Base] == seq(1, _ => Base);
    }
  }

  /** A forced burst start on a cut batch makes every cost infinite, and then everything new is base. */
  lemma BlockedStartIsAllBase(c: Chain)
    requires c.Valid() && !StartAllowed(c)
    ensures Chosen(c) == seq(c.Length(), _ => Base)
  {
    if c.Length() > 0 {
      BlockedStartSearch(c, c.Length());
    }
  }

  /** Whatever was reused, a cut or empty batch is never newly reported as burst. */
  lemma ChosenIsAdmissible(c: Chain)
    requires c.Valid()
    ensures |Chosen(c)| == c.Length() && Admissible(c, Chosen(c))
  {
    if !StartAllowed(c) {
      BlockedStartIsAllBase(c);
    } else if c.Length() > 0 {
      PickedIsKept(c);
    }
  }

  /** Exactly when the search finds a finite-cost answer. */
  lemma FiniteIffStartAllowed(c: Chain)
    requires c.Valid() && 0 < c.Length()
    ensures Search(c, c.Length()).0.cost.Fin? <==> StartAllowed(c)
  {
    if StartAllowed(c) {
      KeptWhenAllowed(c, c.Length(), Base);
    } else {
      BlockedStartSearch(c, c.Length());
    }
  }

  // ----- when the answer is cheapest

  ghost predicate Cheapest(c: Chain, path: seq<State>)
    requires c.Valid() && |path| == c.Length()
  {
    forall other :: |other| == c.Length() && Admissible(c, other) ==> Cost(c, path) <= Cost(c, other)
  }

  /** No batch from a up to b is cut. */
  ghost predicate Uncut(c: Chain, a: nat, b: nat) {
    forall i :: a <= i < b && i < |c.cut| ==> !c.cut[i]
  }

  /** How much cheaper the batches from a up to b are in burst than in base. */
  ghost function Gain(c: Chain, a: nat, b: nat): real
    requires a <= b <= |c.base| == |c.burst|
    decreases b
  {
    if a == b then 0.0 else Gain(c, a, b - 1) + c.base[b - 1] - c.burst[b - 1]
  }

  /** What it costs to be in burst from batch a on, coming from base, or from the forced start. */
  ghost function Entry(c: Chain, a: nat): real {
    if a == c.reuse && c.start == Burst then 0.0 else c.switchCost
  }

  ghost predicate Pays(c: Chain, a: nat, b: nat)
    requires a <= b <= |c.base| == |c.burst|
  {
    Uncut(c, a, b) && Gain(c, a, b) > Entry(c, a)
  }

  /** No run of new batches that are not cut gains more in burst than entering it costs. */
  ghost predicate NoRunPays(c: Chain)
    requires c.Valid()
  {
    forall a, b :: c.reuse <= a < b <= |c.base| ==> !Pays(c, a, b)
  }

  ghost function AllBase(n: nat): seq<State> {
    seq(n, _ => Base)
  }

  ghost function BaseCost(c: Chain, i: nat): real
    requires c.Valid() && i <= |c.base|
    decreases |c.base| - i
  {
    if i == |c.base| then 0.0 else c.base[i] + BaseCost(c, i + 1)
  }

  lemma {:induction false} AllBaseCost(c: Chain, from: State, path: seq<State>, i: nat)
    requires c.Valid() && i + |path| == |c.base| && forall k :: 0 <= k < |path| ==> path[k] == Base
    ensures PathCost(c, from, path, i) == BaseCost(c, i)
    decreases path
  {
    if path != [] {
      AllBaseCost(c, Base, path[1..], i + 1);
    }
  }

  ghost predicate Allowed(c: Chain, path: seq<State>, i: nat)
    requires c.Valid() && i + |path| == |c.base|
  {
    forall k :: 0 <= k < |path| && c.cut[i + k] ==> path[k] == Base
  }

  lemma AllowedTail(c: Chain, path: seq<State>, i: nat)
    requires c.Valid() && i + |path| == |c.base| && path != [] && Allowed(c, path, i)
    ensures Allowed(c, path[1..], i + 1) && (path[0] == Burst ==> !c.cut[i])
  {
    forall k | 0 <= k < |path| - 1 && c.cut[i + 1 + k] ensures path[1..][k] == Base {
      assert path[1..][k] == path[k + 1];
    }
  }

  /** From base, or from the forced start at the first new batch, no sequence is cheaper than all base. */
  lemma {:induction false} OutsideRun(c: Chain, from: State, path: seq<State>, i: nat)
    requires c.Valid() && NoRunPays(c) && c.reuse <= i && i + |path| == |c.base| && Allowed(c, path, i)
    requires from == if i == c.reuse then c.start else Base
    ensures PathCost(c, from, path, i) >= BaseCost(c, i)
    decreases |path|, 1
  {
    if path != [] {
      AllowedTail(c, path, i);
      if path[0] == Base {
        OutsideRun(c, Base, path[1..], i + 1);
      } else {
        assert c.Tau(from, Burst) == Entry(c, i);
        assert Gain(c, i, i + 1) == c.base[i] - c.burst[i];
        InsideRun(c, path[1..], i + 1, i);
      }
    }
  }

  /** Inside a run of burst since batch a the gain so far cannot exceed what entering it cost. */
  lemma {:induction false} InsideRun(c: Chain, path: seq<State>, i: nat, a: nat)
    requires c.Valid() && NoRunPays(c) && c.reuse <= a < i && i + |path| == |c.base| && Allowed(c, path, i)
    requires Uncut(c, a, i)
    ensures PathCost(c, Burst, path, i) + Entry(c, a) - Gain(c, a, i) >= BaseCost(c, i)
    decreases |path|, 0
  {
    assert !Pays(c, a, i);
    if path != [] {
      AllowedTail(c, path, i);
      if path[0] == Base {
        OutsideRun(c, Base, path[1..], i + 1);
      } else {
        InsideRun(c, path[1..], i + 1, a);
      }
    }
  }

  lemma {:induction false} GainFront(c: Chain, a: nat, b: nat)
    requires a < b <= |c.base| == |c.burst|
    ensures Gain(c, a, b) == c.base[a] - c.burst[a] + Gain(c, a + 1, b)
    decreases b
  {
    if a + 1 < b {
      GainFront(c, a, b - 1);
    }
  }

  /** The sequence for batches i and on that is burst from a up to b only. */
  ghost predicate IsRun(c: Chain, path: seq<State>, i: nat, a: nat, b: nat)
    requires c.Valid() && i + |path| == |c.base|
  {
    forall k :: 0 <= k < |path| ==> path[k] == if a <= i + k < b then Burst else Base
  }

  /** What one run costs, compared with all base. */
  lemma {:induction false} RunCost(c: Chain, from: State, path: seq<State>, i: nat, a: nat, b: nat)
    requires c.Valid() && c.reuse <= i && i + |path| == |c.base| && c.reuse <= a < b <= |c.base|
    requires IsRun(c, path, i, a, b)
    requires from == if i == c.reuse then c.start else if a < i <= b then Burst else Base
    ensures PathCost(c, from, path, i)
         == BaseCost(c, i) + if i <= a then Entry(c, a) - Gain(c, a, b) else if i < b then -Gain(c, i, b) else 0.0
    decreases path
  {
    if path != [] {
      RunCost(c, path[0], path[1..], i + 1, a, b);
      if a <= i < b {
        GainFront(c, i, b);
      }
    }
  }

  /** Reporting all base is cheapest exactly when no run pays, whatever the forced start. */
  lemma AllBaseCheapest(c: Chain)
    requires c.Valid()
    ensures Cheapest(c, AllBase(c.Length())) <==> NoRunPays(c)
  {
    var n := c.Length();
    AllBaseCost(c, c.start, AllBase(n), c.reuse);
    if NoRunPays(c) {
      forall other | |other| == n && Admissible(c, other) ensures Cost(c, AllBase(n)) <= Cost(c, other) {
        OutsideRun(c, c.start, other, c.reuse);
      }
    } else {
      var a, b :| c.reuse <= a < b <= |c.base| && Pays(c, a, b);
      var run := seq(n, k requires 0 <= k < n => if a <= c.reuse + k < b then Burst else Base);
      RunCost(c, c.start, run, c.reuse, a, b);
      assert Admissible(c, run);
      assert Cost(c, run) < Cost(c, AllBase(n));
    }
  }

  /** Main result, for every start: the reported sequence is cheapest among all that are base on every cut
      batch if and only if the forced start is allowed or no run of new batches pays. */
  lemma CheapestIff(c: Chain)
    requires c.Valid()
    ensures |Chosen(c)| == c.Length()
    ensures Cheapest(c, Chosen(c)) <==> StartAllowed(c) || NoRunPays(c)
  {
    if StartAllowed(c) {
      forall path | |path| == c.Length() && Admissible(c, path) { ChosenIsOptimal(c, path); }
      ChosenIsAdmissible(c);
    } else {
      BlockedStartIsAllBase(c);
      AllBaseCheapest(c);
    }
  }

  // ----- the reused prefix

  predicate Negative(w: Ext) {
    w.Fin? && w.v < 0.0
  }

  predicate Positive(w: Ext) {
    Greater(w, Fin(0.0))
  }

  /** What erasing the not yet calculated entries leaves. */
  function Kept(weights: seq<Ext>): seq<Ext> {
    if weights == [] then []
    else (if Negative(weights[0]) then [] else [weights[0]]) + Kept(weights[1..])
  }

  lemma KeptFirst(w: Ext, rest: seq<Ext>)
    ensures Kept([w] + rest) == if Negative(w) then Kept(rest) else [w] + Kept(rest)
  {
    assert ([w] + rest)[1..] == rest;
  }

  lemma Associates(x: seq<Ext>, y: seq<Ext>, z: seq<Ext>)
    ensures x + (y + z) == x + y + z
  {
  }

  lemma {:induction false} KeptAppend(a: seq<Ext>, b: seq<Ext>)
    ensures Kept(a + b) == Kept(a) + Kept(b)
  {
    if a == [] {
      assert a + b == b;
    } else {
      var w, rest := a[0], a[1..];
      KeptAppend(rest, b);
      Associates([w], rest, b);
      assert [w] + rest == a;
      KeptFirst(w, rest + b);
      KeptFirst(w, rest);
      Associates([w], Kept(rest), Kept(b));
    }
  }

  lemma {:induction false} KeptNonNegative(weights: seq<Ext>)
    ensures |Kept(weights)| <= |weights|
    ensures forall i :: 0 <= i < |Kept(weights)| ==> !Negative(Kept(weights)[i])
    ensures (forall i :: 0 <= i < |weights| ==> Negative(weights[i])) ==> Kept(weights) == []
    ensures (forall i :: 0 <= i < |weights| ==> !Negative(weights[i])) ==> Kept(weights) == weights
  {
    if weights != [] {
      KeptNonNegative(weights[1..]);
    }
  }

  /** For a non-negative prefix followed by uncalculated entries, exactly the prefix is kept. */
  lemma KeptIsPrefix(weights: seq<Ext>, k: nat)
    requires k <= |weights|
    requires forall i :: 0 <= i < k ==> !Negative(weights[i])
    requires forall i :: k <= i < |weights| ==> Negative(weights[i])
    ensures Kept(weights) == weights[..k]
  {
    var a, b := weights[..k], weights[k..];
    assert a + b == weights;
    assert Kept(a) == a by { KeptNonNegative(a); }
    assert Kept(b) == [] by { KeptNonNegative(b); }
    KeptAppend(a, b);
  }

  method EraseUncalcBatches(weights: seq<Ext>) returns (kept: seq<Ext>)
    ensures kept == Kept(weights)
  {
    kept := [];
    for i := 0 to |weights|
      invariant kept == Kept(weights[..i])
    {
      assert weights[..i + 1] == weights[..i] + [weights[i]];
      KeptAppend(weights[..i], [weights[i]]);
      if !Negative(weights[i]) {
        kept := kept + [weights[i]];
      }
    }
    assert weights[..|weights|] == weights;
  }

  // ----- burst_detect

  datatype Outcome = Ok(weights: seq<Ext>) | InvalidParameter

  predicate Legal(d: seq<nat>, r: seq<nat>, params: Params) {
    && params.gamma > 0.0 && params.scaling > 1.0 && params.threshold > 0.0
    && |d| == |r| && forall i :: 0 <= i < |d| ==> r[i] <= d[i]
  }

  function BaseRate(d: seq<nat>, r: seq<nat>): real
    requires Total(d) > 0
  {
    Total(r) as real / Total(d) as real
  }

  function BurstRate(d: seq<nat>, r: seq<nat>, params: Params): real
    requires Total(d) > 0
  {
    Times(params.scaling, BaseRate(d, r))
  }

  /** Of all documents of the window the share BaseRate is relevant. */
  lemma RateIsShare(d: seq<nat>, r: seq<nat>)
    requires Total(d) > 0
    ensures Times(BaseRate(d, r), Total(d) as real) == Total(r) as real
  {
    TimesQuotient(Total(r) as real, Total(d) as real, BaseRate(d, r));
  }

  lemma TimesQuotient(x: real, y: real, z: real)
    requires y > 0.0 && z == x / y
    ensures Times(z, y) == x
  {
  }

  function BatchWeight(m: Libm, p: real, q: real, d: nat, r: nat): Ext {
    var w := Sigma(m, p, d, r) - Sigma(m, q, d, r);
    if w > 0.0 then Fin(w) else Fin(0.0)
  }

  function WeightsAt(m: Libm, d: seq<nat>, r: seq<nat>, p: real, q: real): (ws: seq<Ext>)
    requires |d| == |r| && forall i :: 0 <= i < |d| ==> r[i] <= d[i]
    ensures |ws| == |d| && forall i :: 0 <= i < |d| ==> !Negative(ws[i])
  {
    seq(|d|, i requires 0 <= i < |d| => BatchWeight(m, p, q, d[i], r[i]))
  }

  /** The weight each batch of a window gets when it is burst. */
  function BatchWeights(m: Libm, d: seq<nat>, r: seq<nat>, params: Params): (ws: seq<Ext>)
    requires Legal(d, r, params) && Total(d) > 0
    ensures |ws| == |d| && forall i :: 0 <= i < |d| ==> !Negative(ws[i])
  {
    WeightsAt(m, d, r, BaseRate(d, r), BurstRate(d, r, params))
  }

  predicate CutOff(m: Libm, params: Params, p: real, q: real, n: nat, d: nat, r: nat) {
    d == 0 || Sigma(m, q, d, r) - Sigma(m, p, d, r) > params.threshold * m.log(n as real)
  }

  /** The search problem a call solves, given how much of the weights it reuses. */
  function Problem(m: Libm, d: seq<nat>, r: seq<nat>, params: Params, kept: seq<Ext>): (c: Chain)
    requires Legal(d, r, params) && 0 < |d| && |kept| <= |d| && Total(d) > 0
    ensures c.Valid() && |c.base| == |d| && c.reuse == |kept|
  {
    ProblemAt(m, d, r, params, kept, BaseRate(d, r), BurstRate(d, r, params))
  }

  /** The same for given rates. */
  function ProblemAt(m: Libm, d: seq<nat>, r: seq<nat>, params: Params, kept: seq<Ext>, p: real, q: real): (c: Chain)
    requires Legal(d, r, params) && 0 < |d| && |kept| <= |d|
    ensures c.Valid() && |c.base| == |d| && c.reuse == |kept|
  {
    var n := |d|;
    Chain(seq(n, i requires 0 <= i < n => Sigma(m, p, d[i], r[i])),
          seq(n, i requires 0 <= i < n => Sigma(m, q, d[i], r[i])),
          seq(n, i requires 0 <= i < n => CutOff(m, params, p, q, n, d[i], r[i])),
          params.gamma * m.log(n as real),
          |kept|,
          if kept != [] && Positive(kept[|kept| - 1]) then Burst else Base)
  }

  /** Runs the search; the two `now` states of the inner loop are written out. */
  method RunSearch(c: Chain) returns (path: seq<State>)
    requires c.Valid()
    ensures path == Chosen(c)
  {
    var base, burst := Initial(c, Base), Initial(c, Burst);
    for k := 0 to c.Length()
      invariant (base, burst) == Search(c, k)
    {
      base, burst := Extend(c, k, Base, base, burst), Extend(c, k, Burst, base, burst);
    }
    path := Pick(c, base, burst);
  }

  /** The weights a state sequence stands for: reused batches stay as burst as they were. */
  ghost predicate Weighs(out: seq<Ext>, kept: seq<Ext>, path: seq<State>, ws: seq<Ext>)
    requires |ws| == |kept| + |path|
  {
    && |out| == |ws|
    && (forall i :: 0 <= i < |kept| ==> out[i] == if Positive(kept[i]) then ws[i] else kept[i])
    && (forall i :: |kept| <= i < |ws| ==> out[i] == if path[i - |kept|] == Burst then ws[i] else Fin(0.0))
  }

  method FillWeights(kept: seq<Ext>, path: seq<State>, ws: seq<Ext>) returns (out: seq<Ext>)
    requires |ws| == |kept| + |path|
    ensures Weighs(out, kept, path, ws)
  {
    out := kept;
    for i := 0 to |kept|
      invariant |out| == |kept|
      invariant forall j :: 0 <= j < i ==> out[j] == if Positive(kept[j]) then ws[j] else kept[j]
      invariant forall j :: i <= j < |kept| ==> out[j] == kept[j]
    {
      if Positive(out[i]) {
        out := out[i := ws[i]];
      }
    }
    for i := |kept| to |ws|
      invariant |out| == i
      invariant forall j :: 0 <= j < |kept| ==> out[j] == if Positive(kept[j]) then ws[j] else kept[j]
      invariant forall j :: |kept| <= j < i ==> out[j] == if path[j - |kept|] == Burst then ws[j] else Fin(0.0)
    {
      out := out + [if path[i - |kept|] == Burst then ws[i] else Fin(0.0)];
    }
  }

  function Pad(kept: seq<Ext>, n: nat, w: Ext): seq<Ext>
    requires |kept| <= n
  {
    kept + seq(n - |kept|, _ => w)
  }

  /** What a call that accepts its arguments returns for a window with some document. */
  ghost predicate Detected(m: Libm, d: seq<nat>, r: seq<nat>, params: Params, kept: seq<Ext>, out: seq<Ext>)
    requires Legal(d, r, params) && 0 < |d| && |kept| <= |d| && Total(d) > 0
  {
    if BurstRate(d, r, params) > 1.0 then out == Pad(kept, |d|, Inf)
    else if BaseRate(d, r) == 0.0 then out == Pad(kept, |d|, Fin(0.0))
    else
      var path := Chosen(Problem(m, d, r, params, kept));
      |path| == |d| - |kept| && Weighs(out, kept, path, BatchWeights(m, d, r, params))
  }

  method Detect(m: Libm, d: seq<nat>, r: seq<nat>, params: Params, kept: seq<Ext>) returns (out: seq<Ext>)
    requires Legal(d, r, params) && 0 < |d| && |kept| <= |d| && Total(d) > 0
    ensures Detected(m, d, r, params, kept, out)
  {
    if BurstRate(d, r, params) > 1.0 {
      return Pad(kept, |d|, Inf);
    } else if BaseRate(d, r) == 0.0 {
      return Pad(kept, |d|, Fin(0.0));
    }
    var c := Problem(m, d, r, params, kept);
    var path := RunSearch(c);
    SearchKeeps(c, c.Length());
    out := FillWeights(kept, path, BatchWeights(m, d, r, params));
  }

  lemma DetectedNonNegative(m: Libm, d: seq<nat>, r: seq<nat>, params: Params, kept: seq<Ext>, out: seq<Ext>)
    requires Legal(d, r, params) && 0 < |d| && |kept| <= |d| && Total(d) > 0
    requires Detected(m, d, r, params, kept, out)
    requires forall i :: 0 <= i < |kept| ==> !Negative(kept[i])
    ensures |out| == |d| && forall i :: 0 <= i < |d| ==> !Negative(out[i])
  {
  }

  // ----- what a call reports, in terms of the documents alone

  /** The documents of a window with the rates and the two costs a call works with. */
  datatype Evidence = Evidence(m: Libm, d: seq<nat>, r: seq<nat>, p: real, q: real, entry: real, cutoff: real) {
    predicate Valid() {
      && |d| == |r| && (forall i :: 0 <= i < |d| ==> r[i] <= d[i])
      && 0.0 < p < 1.0 && 0.0 < q < 1.0
    }

    /** Minus the log probability of batch i in a state. */
    ghost function Surprise(s: State, i: nat): real
      requires Valid() && i < |d|
    {
      -m.log(Binomial(if s == Base then p else q, d[i], r[i]))
    }

    /** Empty, or so much less likely in burst that it is base whatever its neighbours are. */
    ghost predicate OnlyBase(i: nat)
      requires Valid() && i < |d|
    {
      d[i] == 0 || Surprise(Burst, i) - Surprise(Base, i) > cutoff
    }

    ghost function Excess(i: nat): real
      requires Valid() && i < |d|
    {
      var x := Surprise(Base, i) - Surprise(Burst, i);
      if x > 0.0 then x else 0.0
    }
  }

  function EvidenceOf(m: Libm, d: seq<nat>, r: seq<nat>, params: Params): Evidence
    requires Total(d) > 0
  {
    EvidenceAt(m, d, r, params, BaseRate(d, r), BurstRate(d, r, params))
  }

  function EvidenceAt(m: Libm, d: seq<nat>, r: seq<nat>, params: Params, p: real, q: real): Evidence {
    Evidence(m, d, r, p, q, params.gamma * m.log(|d| as real), params.threshold * m.log(|d| as real))
  }

  /** The surprise of all batches from i on, and the entry cost of every change from base to burst. */
  ghost function WindowCost(e: Evidence, from: State, path: seq<State>, i: nat): real
    requires e.Valid() && i + |path| <= |e.d|
    decreases path
  {
    if path == [] then 0.0
    else
      (if from == Base && path[0] == Burst then e.entry else 0.0) + e.Surprise(path[0], i)
      + WindowCost(e, path[0], path[1..], i + 1)
  }

  ghost predicate Possible(e: Evidence, path: seq<State>, i: nat)
    requires e.Valid() && i + |path| <= |e.d|
  {
    forall k :: 0 <= k < |path| && e.OnlyBase(i + k) ==> path[k] == Base
  }

  /** The state that the reused weights end in. */
  function StartState(kept: seq<Ext>): State {
    if kept != [] && Positive(kept[|kept| - 1]) then Burst else Base
  }

  ghost predicate Likeliest(e: Evidence, from: State, path: seq<State>, i: nat)
    requires e.Valid() && i + |path| == |e.d|
  {
    && Possible(e, path, i)
    && forall other :: |other| == |path| && Possible(e, other, i) ==>
         WindowCost(e, from, path, i) <= WindowCost(e, from, other, i)
  }

  ghost predicate Explains(e: Evidence, kept: seq<Ext>, out: seq<Ext>, path: seq<State>)
    requires e.Valid() && |kept| + |path| == |e.d|
  {
    && |out| == |e.d|
    && (forall i :: 0 <= i < |kept| ==> out[i] == if Positive(kept[i]) then Fin(e.Excess(i)) else kept[i])
    && (forall i :: |kept| <= i < |e.d| ==>
          out[i] == Fin(if path[i - |kept|] == Burst then e.Excess(i) else 0.0))
  }

  /** The new batches are reported in the states that make the window most likely, each burst batch with how
      much more likely burst makes it; all new batches are base after a burst batch that is now only base. */
  ghost predicate Reports(e: Evidence, kept: seq<Ext>, out: seq<Ext>)
    requires e.Valid() && |kept| <= |e.d|
  {
    exists path: seq<State> ::
      && |path| == |e.d| - |kept| && Explains(e, kept, out, path)
      && if StartState(kept) == Burst && e.OnlyBase(|kept| - 1) then forall k :: 0 <= k < |path| ==> path[k] == Base
         else Likeliest(e, StartState(kept), path, |kept|)
  }

  /** One batch of a search problem and of its evidence. */
  ghost predicate MatchesAt(c: Chain, e: Evidence, i: nat)
    requires c.Valid() && e.Valid() && i < |c.base| == |e.d|
  {
    c.base[i] == e.Surprise(Base, i) && c.burst[i] == e.Surprise(Burst, i) && (c.cut[i] <==> e.OnlyBase(i))
  }

  /** The search problem of a call is about its evidence. */
  ghost predicate Matches(c: Chain, e: Evidence)
    requires c.Valid() && e.Valid()
  {
    && |c.base| == |e.d| && c.switchCost == e.entry
    && forall i :: 0 <= i < |e.d| ==> MatchesAt(c, e, i)
  }

  lemma BatchSurprise(e: Evidence, i: nat)
    requires e.Valid() && i < |e.d| && IsLog(e.m.log) && IsLgamma(e.m)
    ensures Sigma(e.m, e.p, e.d[i], e.r[i]) == e.Surprise(Base, i)
    ensures Sigma(e.m, e.q, e.d[i], e.r[i]) == e.Surprise(Burst, i)
  {
    SigmaIsSurprise(e.m, e.p, e.d[i], e.r[i]);
    SigmaIsSurprise(e.m, e.q, e.d[i], e.r[i]);
  }

  /** The numbers of a search problem. */
  lemma ProblemNumbers(m: Libm, d: seq<nat>, r: seq<nat>, params: Params, kept: seq<Ext>, p: real, q: real, i: nat)
    requires Legal(d, r, params) && |kept| <= |d| && i < |d|
    ensures var c, e := ProblemAt(m, d, r, params, kept, p, q), EvidenceAt(m, d, r, params, p, q);
            var low, high := Sigma(m, p, d[i], r[i]), Sigma(m, q, d[i], r[i]);
            && c.switchCost == e.entry && c.base[i] == low && c.burst[i] == high
            && (c.cut[i] <==> d[i] == 0 || high - low > e.cutoff)
  {
  }

  lemma WeightNumbers(m: Libm, d: seq<nat>, r: seq<nat>, p: real, q: real, i: nat)
    requires |d| == |r| && (forall i :: 0 <= i < |d| ==> r[i] <= d[i]) && i < |d|
    ensures var x := Sigma(m, p, d[i], r[i]) - Sigma(m, q, d[i], r[i]);
            WeightsAt(m, d, r, p, q)[i] == Fin(if x > 0.0 then x else 0.0)
  {
  }

  lemma ProblemMatchesAt(m: Libm, d: seq<nat>, r: seq<nat>, params: Params, kept: seq<Ext>, p: real, q: real, i: nat)
    requires Legal(d, r, params) && |kept| <= |d| && i < |d|
    requires IsLog(m.log) && IsLgamma(m) && EvidenceAt(m, d, r, params, p, q).Valid()
    ensures MatchesAt(ProblemAt(m, d, r, params, kept, p, q), EvidenceAt(m, d, r, params, p, q), i)
    ensures WeightsAt(m, d, r, p, q)[i] == Fin(EvidenceAt(m, d, r, params, p, q).Excess(i))
  {
    ProblemNumbers(m, d, r, params, kept, p, q, i);
    WeightNumbers(m, d, r, p, q, i);
    BatchSurprise(EvidenceAt(m, d, r, params, p, q), i);
  }

  lemma ProblemMatches(m: Libm, d: seq<nat>, r: seq<nat>, params: Params, kept: seq<Ext>, p: real, q: real)
    requires Legal(d, r, params) && 0 < |d| && |kept| <= |d|
    requires IsLog(m.log) && IsLgamma(m) && EvidenceAt(m, d, r, params, p, q).Valid()
    ensures Matches(ProblemAt(m, d, r, params, kept, p, q), EvidenceAt(m, d, r, params, p, q))
    ensures WeighsExcess(EvidenceAt(m, d, r, params, p, q), WeightsAt(m, d, r, p, q))
  {
    forall i | 0 <= i < |d|
      ensures MatchesAt(ProblemAt(m, d, r, params, kept, p, q), EvidenceAt(m, d, r, params, p, q), i)
      ensures WeightsAt(m, d, r, p, q)[i] == Fin(EvidenceAt(m, d, r, params, p, q).Excess(i))
    {
      ProblemMatchesAt(m, d, r, params, kept, p, q, i);
    }
    ProblemNumbers(m, d, r, params, kept, p, q, 0);
  }

  ghost predicate WeighsExcess(e: Evidence, ws: seq<Ext>)
    requires e.Valid()
  {
    |ws| == |e.d| && forall i :: 0 <= i < |ws| ==> ws[i] == Fin(e.Excess(i))
  }

  lemma WeighedIsExplained(e: Evidence, kept: seq<Ext>, out: seq<Ext>, path: seq<State>, ws: seq<Ext>)
    requires e.Valid() && |kept| + |path| == |e.d| && WeighsExcess(e, ws) && Weighs(out, kept, path, ws)
    ensures Explains(e, kept, out, path)
  {
  }

  lemma {:induction false} CostIsWindowCost(c: Chain, e: Evidence, from: State, path: seq<State>, i: nat)
    requires c.Valid() && e.Valid() && Matches(c, e) && i + |path| <= |e.d|
    ensures PathCost(c, from, path, i) == WindowCost(e, from, path, i)
    decreases path
  {
    if path != [] {
      assert MatchesAt(c, e, i);
      CostIsWindowCost(c, e, path[0], path[1..], i + 1);
    }
  }

  lemma PossibleIsAdmissible(c: Chain, e: Evidence, path: seq<State>)
    requires c.Valid() && e.Valid() && Matches(c, e) && |path| == c.Length()
    ensures Possible(e, path, c.reuse) <==> Admissible(c, path)
  {
    if Possible(e, path, c.reuse) {
      forall k | 0 <= k < |path| && c.cut[c.reuse + k] ensures path[k] == Base {
        assert MatchesAt(c, e, c.reuse + k);
      }
    }
    if Admissible(c, path) {
      forall k | 0 <= k < |path| && e.OnlyBase(c.reuse + k) ensures path[k] == Base {
        assert MatchesAt(c, e, c.reuse + k);
      }
    }
  }

  lemma ChosenIsLikeliest(c: Chain, e: Evidence)
    requires c.Valid() && e.Valid() && Matches(c, e) && StartAllowed(c)
    ensures |Chosen(c)| == c.Length() && Likeliest(e, c.start, Chosen(c), c.reuse)
  {
    ChosenIsAdmissible(c);
    PossibleIsAdmissible(c, e, Chosen(c));
    CostIsWindowCost(c, e, c.start, Chosen(c), c.reuse);
    forall other | |other| == c.Length() && Possible(e, other, c.reuse)
      ensures WindowCost(e, c.start, Chosen(c), c.reuse) <= WindowCost(e, c.start, other, c.reuse)
    {
      PossibleIsAdmissible(c, e, other);
      ChosenIsOptimal(c, other);
      CostIsWindowCost(c, e, c.start, other, c.reuse);
    }
  }

  /** The forced start of the problem is blocked exactly when the last reused batch is burst and now only base. */
  lemma StartMatches(c: Chain, e: Evidence, kept: seq<Ext>)
    requires c.Valid() && e.Valid() && Matches(c, e) && c.start == StartState(kept) && c.reuse == |kept|
    ensures StartAllowed(c) <==> !(StartState(kept) == Burst && e.OnlyBase(|kept| - 1))
  {
    if kept != [] {
      assert MatchesAt(c, e, |kept| - 1);
    }
  }

  /** Main result about a call with a burst rate below 1 and some relevant document. */
  lemma DetectedIsReported(m: Libm, d: seq<nat>, r: seq<nat>, params: Params, kept: seq<Ext>, out: seq<Ext>)
    requires Legal(d, r, params) && 0 < |d| && |kept| <= |d| && Total(d) > 0
    requires Detected(m, d, r, params, kept, out)
    requires IsLog(m.log) && IsLgamma(m) && EvidenceOf(m, d, r, params).Valid()
    ensures Reports(EvidenceOf(m, d, r, params), kept, out)
  {
    ChosenIsAdmissible(Problem(m, d, r, params, kept));
    SearchReports(m, d, r, params, kept, out, BaseRate(d, r), BurstRate(d, r, params));
  }

  lemma SearchReports(m: Libm, d: seq<nat>, r: seq<nat>, params: Params, kept: seq<Ext>, out: seq<Ext>, p: real,
                      q: real)
    requires Legal(d, r, params) && 0 < |d| && |kept| <= |d|
    requires IsLog(m.log) && IsLgamma(m) && EvidenceAt(m, d, r, params, p, q).Valid()
    requires var path := Chosen(ProblemAt(m, d, r, params, kept, p, q));
             |path| == |d| - |kept| && Weighs(out, kept, path, WeightsAt(m, d, r, p, q))
    ensures Reports(EvidenceAt(m, d, r, params, p, q), kept, out)
  {
    var c, e := ProblemAt(m, d, r, params, kept, p, q), EvidenceAt(m, d, r, params, p, q);
    ProblemMatches(m, d, r, params, kept, p, q);
    StartMatches(c, e, kept);
    WeighedIsExplained(e, kept, out, Chosen(c), WeightsAt(m, d, r, p, q));
    ChosenReports(c, e, kept, out);
  }

  lemma ChosenReports(c: Chain, e: Evidence, kept: seq<Ext>, out: seq<Ext>)
    requires c.Valid() && e.Valid() && Matches(c, e) && c.start == StartState(kept) && c.reuse == |kept| <= |e.d|
    requires StartAllowed(c) <==> !(StartState(kept) == Burst && e.OnlyBase(|kept| - 1))
    requires |Chosen(c)| == c.Length() && Explains(e, kept, out, Chosen(c))
    ensures Reports(e, kept, out)
  {
    if StartAllowed(c) {
      ChosenIsLikeliest(c, e);
    } else {
      BlockedStartIsAllBase(c);
    }
  }

  lemma RateBelow(a: nat, b: nat, p: real, d: nat, r: nat)
    requires a > 0 && Times(p, a as real) == b as real && r * a <= d * b
    ensures Times(d as real, p) >= r as real
  {
    RealProduct(d, b);
    RealProduct(r, a);
    BelowRate(a as real, b as real, p, d as real, r as real);
  }

  lemma BelowRate(a: real, b: real, p: real, d: real, r: real)
    requires a > 0.0 && Times(p, a) == b && Times(r, a) <= Times(d, b)
    ensures Times(d, p) >= r
  {
    assert (d * p - r) * a == d * (p * a) - r * a;
    SignOfFactor(d * p - r, a);
  }

  /** A batch whose share of relevant documents is not above that of the whole window has weight 0. */
  lemma QuietWeight(m: Libm, d: seq<nat>, r: seq<nat>, params: Params, p: real, q: real, i: nat)
    requires Legal(d, r, params) && IsLog(m.log) && 0.0 < p < 1.0 && 0.0 < q < 1.0 && q == Times(params.scaling, p)
    requires i < |d| && Times(d[i] as real, p) >= r[i] as real
    ensures WeightsAt(m, d, r, p, q)[i] == Fin(0.0)
  {
    WeightNumbers(m, d, r, p, q, i);
    Rises(q - p, Times(d[i] as real, p) - r[i] as real, params.scaling, p);
    SigmaRises(m, p, q, d[i], r[i]);
  }

  lemma Rises(x: real, y: real, scaling: real, p: real)
    requires scaling > 1.0 && p > 0.0 && x == Times(scaling, p) - p && y >= 0.0
    ensures Times(x, y) >= 0.0
  {
    assert x == (scaling - 1.0) * p && x >= 0.0;
  }

  /** No new batch is ever reported whose share of relevant documents is not above that of the whole window. */
  lemma QuietBatches(m: Libm, d: seq<nat>, r: seq<nat>, params: Params, kept: seq<Ext>, out: seq<Ext>)
    requires Legal(d, r, params) && 0 < |d| && |kept| <= |d| && Total(d) > 0
    requires Detected(m, d, r, params, kept, out) && IsLog(m.log)
    requires Times(params.scaling, Total(r) as real) < Total(d) as real
    ensures |out| == |d|
    ensures forall i :: |kept| <= i < |d| && r[i] * Total(d) <= d[i] * Total(r) ==> out[i] == Fin(0.0)
  {
    RatesInside(d, r, params);
    if Total(r) > 0 {
      forall i | |kept| <= i < |d| && r[i] * Total(d) <= d[i] * Total(r)
        ensures BatchWeights(m, d, r, params)[i] == Fin(0.0)
      {
        RateIsShare(d, r);
        RateBelow(Total(d), Total(r), BaseRate(d, r), d[i], r[i]);
        QuietWeight(m, d, r, params, BaseRate(d, r), BurstRate(d, r, params), i);
      }
    }
  }

  lemma RatesInside(d: seq<nat>, r: seq<nat>, params: Params)
    requires Total(d) > 0 && params.scaling > 1.0 && Times(params.scaling, Total(r) as real) < Total(d) as real
    ensures BurstRate(d, r, params) < 1.0 && (BaseRate(d, r) == 0.0 <==> Total(r) == 0)
    ensures Total(r) > 0 ==> 0.0 < BaseRate(d, r) < 1.0 && 0.0 < BurstRate(d, r, params)
  {
    RateIsShare(d, r);
    RatesAlgebra(Total(r) as real, Total(d) as real, BaseRate(d, r), BurstRate(d, r, params), params.scaling);
  }

  /** With a burst rate above 1 every new batch is reported with infinite weight. */
  lemma HotBatches(m: Libm, d: seq<nat>, r: seq<nat>, params: Params, kept: seq<Ext>, out: seq<Ext>)
    requires Legal(d, r, params) && 0 < |d| && |kept| <= |d| && Total(d) > 0
    requires Detected(m, d, r, params, kept, out)
    requires Times(params.scaling, Total(r) as real) > Total(d) as real
    ensures |out| == |d| && forall i :: |kept| <= i < |d| ==> out[i] == Inf
  {
    RateIsShare(d, r);
    RateAbove(Total(r) as real, Total(d) as real, BaseRate(d, r), BurstRate(d, r, params), params.scaling);
  }

  lemma RateAbove(a: real, b: real, p: real, q: real, scaling: real)
    requires b > 0.0 && Times(p, b) == a && q == Times(scaling, p) && Times(scaling, a) > b
    ensures q > 1.0
  {
    assert Times(q, b) == Times(scaling, a);
    FactorBelow(1.0, q, b);
  }

  lemma FactorBelow(x: real, y: real, b: real)
    requires b > 0.0 && Times(x, b) < Times(y, b)
    ensures x < y
  {
    if x >= y {
      Scaled(b, y, x);
    }
  }

  lemma RatesAlgebra(a: real, b: real, p: real, q: real, scaling: real)
    requires b > 0.0 && Times(p, b) == a && q == Times(scaling, p) && a >= 0.0 && scaling > 1.0 && Times(scaling, a) < b
    ensures p < 1.0 && q < 1.0 && (p == 0.0 <==> a == 0.0)
    ensures a > 0.0 ==> p > 0.0 && q > 0.0
  {
    assert Times(q, b) == Times(scaling, a);
    assert Times(a, scaling) == Times(scaling, a);
    Scaled(a, 1.0, scaling);
    FactorBelow(p, 1.0, b);
    FactorBelow(q, 1.0, b);
    if a > 0.0 {
      FactorBelow(0.0, p, b);
      BurstLikelihood.Positive(scaling, p);
    } else {
      NoShare(b, p, 0.0);
    }
  }

  /** The whole call. A window with no documents at all makes every probability NaN, whose
      comparisons are all false: nothing is burst. */
  method BurstDetect(m: Libm, d: seq<nat>, r: seq<nat>, weights: seq<Ext>, params: Params) returns (res: Outcome)
    requires 0 < |d| && |Kept(weights)| <= |d|
    ensures res.Ok? <==> Legal(d, r, params)
    ensures res.Ok? ==> |res.weights| == |d| && forall i :: 0 <= i < |d| ==> !Negative(res.weights[i])
    ensures res.Ok? && Total(d) == 0 ==> res.weights == Pad([], |d|, Fin(0.0))
    ensures res.Ok? && Total(d) > 0 ==> Detected(m, d, r, params, Kept(weights), res.weights)
    ensures res.Ok? && Total(d) > 0 && IsLog(m.log) && Times(params.scaling, Total(r) as real) < Total(d) as real ==>
              forall i :: |Kept(weights)| <= i < |d| && r[i] * Total(d) <= d[i] * Total(r) ==>
                res.weights[i] == Fin(0.0)
    ensures res.Ok? && Total(d) > 0 && Times(params.scaling, Total(r) as real) > Total(d) as real ==>
              forall i :: |Kept(weights)| <= i < |d| ==> res.weights[i] == Inf
    ensures res.Ok? && Total(r) > 0 && IsLog(m.log) && IsLgamma(m)
            && Times(params.scaling, Total(r) as real) < Total(d) as real ==>
              EvidenceOf(m, d, r, params).Valid() && Reports(EvidenceOf(m, d, r, params), Kept(weights), res.weights)
  {
    if params.gamma <= 0.0 || params.scaling <= 1.0 || params.threshold <= 0.0 || |d| != |r| {
      return InvalidParameter;
    }
    for i := 0 to |d|
      invariant forall j :: 0 <= j < i ==> r[j] <= d[j]
    {
      if d[i] < r[i] {
        return InvalidParameter;
      }
    }
    var kept := EraseUncalcBatches(weights);
    if Total(d) == 0 {
      return Ok(Pad([], |d|, Fin(0.0)));
    }
    var out := Detect(m, d, r, params, kept);
    KeptNonNegative(weights);
    DetectedNonNegative(m, d, r, params, kept, out);
    if Times(params.scaling, Total(r) as real) > Total(d) as real {
      HotBatches(m, d, r, params, kept, out);
    }
    if Times(params.scaling, Total(r) as real) < Total(d) as real {
      RatesInside(d, r, params);
      if IsLog(m.log) {
        QuietBatches(m, d, r, params, kept, out);
        if Total(r) > 0 && IsLgamma(m) {
          DetectedIsReported(m, d, r, params, kept, out);
        }
      }
    }
    res := Ok(out);
  }

  // ----- a call with a cut burst start

  lemma ExampleRates(d: seq<nat>, r: seq<nat>, params: Params)
    requires d == [100, 0, 10] && r == [1, 0, 10] && params == Params(2.0, 1.0, 1.0)
    ensures Legal(d, r, params) && Total(d) == 110 && BaseRate(d, r) == 0.1 && BurstRate(d, r, params) == 0.2
  {
    assert d[1..] == r[1..] == [0, 10] && [0, 10][1..] == [10] && [10][1..] == [];
    assert Total([10]) == 10 && Total([0, 10]) == 10 && Total(d) == 110 && Total(r) == 11;
  }

  lemma ExampleKept(weights: seq<Ext>)
    requires weights == [Fin(0.0), Inf, Fin(-1.0)]
    ensures Kept(weights) == [Fin(0.0), Inf]
  {
    assert weights[..2] == [Fin(0.0), Inf];
    KeptIsPrefix(weights, 2);
  }

  lemma ExampleGain(m: Libm)
    requires m.log(0.1) < m.log(0.2)
    ensures Sigma(m, 0.2, 10, 10) < Sigma(m, 0.1, 10, 10)
  {
  }

  /** A call whose reused prefix ends in a burst batch without documents, as the early exit for a burst rate
      above 1 leaves it: the answer costs strictly more than the one burst batch it could report. */
  lemma BlockedStartCanBeSuboptimal(m: Libm, d: seq<nat>, r: seq<nat>, params: Params, weights: seq<Ext>)
    requires d == [100, 0, 10] && r == [1, 0, 10] && params == Params(2.0, 1.0, 1.0)
    requires weights == [Fin(0.0), Inf, Fin(-1.0)]
    requires m.log(0.1) < m.log(0.2) && m.log(3.0) > 0.0
    ensures Legal(d, r, params) && 0 < Total(d) && |Kept(weights)| == 2
    ensures 0.0 < BaseRate(d, r) && BurstRate(d, r, params) < 1.0
    ensures var c := Problem(m, d, r, params, Kept(weights));
            !StartAllowed(c) && Chosen(c) == [Base] && c.Length() == 1 && Admissible(c, [Burst])
            && Cost(c, [Burst]) < Cost(c, Chosen(c))
  {
    ExampleRates(d, r, params);
    ExampleKept(weights);
    ExampleGain(m);
    var c := Problem(m, d, r, params, Kept(weights));
    assert c.reuse == 2 && c.start == Burst && c.cut[1] && !c.cut[2];
    assert c.base[2] == Sigma(m, 0.1, 10, 10) && c.burst[2] == Sigma(m, 0.2, 10, 10);
    BlockedStartIsAllBase(c);
    assert Chosen(c) == [Base];
    OneBatchCost(c);
  }

  lemma OneBatchCost(c: Chain)
    requires c.Valid() && c.Length() == 1 && c.start == Burst
    ensures Cost(c, [Burst]) == c.burst[c.reuse] && Cost(c, [Base]) == c.base[c.reuse]
  {
    assert PathCost(c, Burst, [], c.reuse + 1) == 0.0 && PathCost(c, Base, [], c.reuse + 1) == 0.0;
  }
}
