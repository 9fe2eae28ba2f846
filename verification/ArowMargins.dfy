/** How a training step of AROW moves the margin (jubatus/core/classifier/arow.cpp). */
module ArowMargins {
  import opened Arow
  import opened Options

  // ----- how far the scores move, for any feature vector

  /** The covariance of an entry after the coordinates of fv were processed: their shrinking does not depend on
      the step size. */
  function CovarAfter(t: Table, fv: Fv, beta: real, l: Label, rival: Option<Label>, f: Feature, k: Label): real {
    if fv == [] then ValAt(t, f, k).covar
    else
      var x, c := fv[|fv| - 1], CovarAfter(t, fv[..|fv| - 1], beta, l, rival, f, k);
      if x.feature == f && (k == l || rival == Some(k)) then c - Shrink(beta, c, x.value) else c
  }

  /** The values of one feature, each times the covariance it meets. */
  function Push(t: Table, fv: Fv, beta: real, l: Label, rival: Option<Label>, f: Feature, k: Label): real {
    if fv == [] then 0.0
    else
      var x, front := fv[|fv| - 1], fv[..|fv| - 1];
      Push(t, front, beta, l, rival, f, k)
      + if x.feature == f then Product(CovarAfter(t, front, beta, l, rival, f, k), x.value) else 0.0
  }

  type Pushes = Feature -> real

  ghost function PushesOf(t: Table, fv: Fv, beta: real, l: Label, rival: Option<Label>, k: Label): Pushes {
    (f: Feature) => Push(t, fv, beta, l, rival, f, k)
  }

  /** Every coordinate's value times the push of its feature. */
  ghost function Reach(push: Pushes, fv: Fv): real {
    if fv == [] then 0.0
    else Reach(push, fv[..|fv| - 1]) + Product(push(fv[|fv| - 1].feature), fv[|fv| - 1].value)
  }

  function ValueSum(fv: Fv, f: Feature): real {
    if fv == [] then 0.0
    else ValueSum(fv[..|fv| - 1], f) + if fv[|fv| - 1].feature == f then fv[|fv| - 1].value else 0.0
  }

  function Without(fv: Fv, f: Feature): Fv {
    if fv == [] then []
    else Without(fv[..|fv| - 1], f) + if fv[|fv| - 1].feature == f then [] else [fv[|fv| - 1]]
  }

  /** Feature by feature, the reach is the push times the sum of the feature's values. */
  lemma {:induction false} ReachOfFeature(push: Pushes, fv: Fv, f: Feature)
    ensures Reach(push, fv) == Product(push(f), ValueSum(fv, f)) + Reach(push, Without(fv, f))
  {
    if fv != [] {
      var front, x := fv[..|fv| - 1], fv[|fv| - 1];
      ReachOfFeature(push, front, f);
      if x.feature == f {
        ProductAdds(push(f), ValueSum(front, f), x.value);
        assert Without(fv, f) == Without(front, f);
      } else {
        assert (Without(front, f) + [x])[..|Without(front, f)|] == Without(front, f);
      }
    }
  }

  lemma {:induction false} UpdatedCovar(t: Table, fv: Fv, alpha: real, beta: real, l: Label, rival: Option<Label>,
                                        f: Feature, k: Label)
    requires rival != Some(l)
    ensures ValAt(Update(t, fv, alpha, beta, l, rival), f, k).covar == CovarAfter(t, fv, beta, l, rival, f, k)
  {
    if fv != [] {
      var front, x := fv[..|fv| - 1], fv[|fv| - 1];
      UpdatedCovar(t, front, alpha, beta, l, rival, f, k);
      RowAfter(RowAt(Update(t, front, alpha, beta, l, rival), x.feature), x.value, alpha, beta, l, rival, k);
    }
  }

  lemma ProductAdds(a: real, x: real, y: real)
    ensures Product(a, x) + Product(a, y) == Product(a, x + y)
  {
  }

  lemma ProductZero(a: real)
    ensures Product(a, 0.0) == 0.0
  {
  }

  lemma ShiftIsProduct(a: real, c: real, x: real)
    ensures Shift(a, c, x) == Product(a, Product(c, x))
  {
  }

  function Signed(minus: bool, x: real): real {
    if minus then -x else x
  }

  /** The weights of the label and of the rival move by the step size times the push, up and down. */
  lemma {:induction false} UpdatedWeight(t: Table, fv: Fv, alpha: real, beta: real, l: Label, rival: Option<Label>,
                                         f: Feature, k: Label)
    requires rival != Some(l) && (k == l || rival == Some(k))
    ensures ValAt(Update(t, fv, alpha, beta, l, rival), f, k).weight
         == ValAt(t, f, k).weight + Signed(k != l, Product(alpha, Push(t, fv, beta, l, rival, f, k)))
  {
    if fv == [] {
      ProductZero(alpha);
    } else {
      var front, x := fv[..|fv| - 1], fv[|fv| - 1];
      var u := Update(t, front, alpha, beta, l, rival);
      UpdatedWeight(t, front, alpha, beta, l, rival, f, k);
      if x.feature == f {
        UpdatedCovar(t, front, alpha, beta, l, rival, f, k);
        RowAfter(RowAt(u, f), x.value, alpha, beta, l, rival, k);
        OnePush(alpha, Push(t, front, beta, l, rival, f, k), CovarAfter(t, front, beta, l, rival, f, k), x.value);
      }
    }
  }

  lemma OnePush(alpha: real, push: real, c: real, x: real)
    ensures Product(alpha, push) + Shift(alpha, c, x) == Product(alpha, push + Product(c, x))
  {
    ShiftIsProduct(alpha, c, x);
    ProductAdds(alpha, push, Product(c, x));
  }

  lemma {:induction false} OtherWeights(t: Table, fv: Fv, alpha: real, beta: real, l: Label, rival: Option<Label>,
                                        f: Feature, k: Label)
    requires k != l && rival != Some(k) && rival != Some(l)
    ensures ValAt(Update(t, fv, alpha, beta, l, rival), f, k) == ValAt(t, f, k)
  {
    if fv != [] {
      var front, x := fv[..|fv| - 1], fv[|fv| - 1];
      OtherWeights(t, front, alpha, beta, l, rival, f, k);
      RowAfter(RowAt(Update(t, front, alpha, beta, l, rival), x.feature), x.value, alpha, beta, l, rival, k);
    }
  }

  lemma MovedProduct(w: real, minus: bool, a: real, push: real, x: real)
    ensures Product(w + Signed(minus, Product(a, push)), x)
         == Product(w, x) + Signed(minus, Product(a, Product(push, x)))
  {
  }

  lemma SignedAdds(minus: bool, a: real, x: real, y: real)
    ensures Signed(minus, Product(a, x)) + Signed(minus, Product(a, y)) == Signed(minus, Product(a, x + y))
  {
    ProductAdds(a, x, y);
  }

  lemma {:induction false} ScoreMoves(t: Table, u: Table, fv: Fv, minus: bool, a: real, push: Pushes, k: Label)
    requires forall f :: ValAt(u, f, k).weight == ValAt(t, f, k).weight + Signed(minus, Product(a, push(f)))
    ensures Score(u, fv, k) == Score(t, fv, k) + Signed(minus, Product(a, Reach(push, fv)))
  {
    if fv == [] {
      ProductZero(a);
    } else {
      var front, x := fv[..|fv| - 1], fv[|fv| - 1];
      ScoreMoves(t, u, front, minus, a, push, k);
      MovedProduct(ValAt(t, x.feature, k).weight, minus, a, push(x.feature), x.value);
      SignedAdds(minus, a, Reach(push, front), Product(push(x.feature), x.value));
    }
  }

  /** How far a step of size 1 would move the margin: the reach of the label plus that of the rival. */
  ghost function MarginReach(t: Table, fv: Fv, beta: real, l: Label, rival: Option<Label>): real {
    Reach(PushesOf(t, fv, beta, l, rival, l), fv)
    + if rival.None? then 0.0 else Reach(PushesOf(t, fv, beta, l, rival, rival.value), fv)
  }

  lemma LabelMoves(t: Table, fv: Fv, alpha: real, beta: real, l: Label, rival: Option<Label>, k: Label)
    requires rival != Some(l) && (k == l || rival == Some(k))
    ensures Score(Update(t, fv, alpha, beta, l, rival), fv, k)
         == Score(t, fv, k) + Signed(k != l, Product(alpha, Reach(PushesOf(t, fv, beta, l, rival, k), fv)))
  {
    var u, push := Update(t, fv, alpha, beta, l, rival), PushesOf(t, fv, beta, l, rival, k);
    forall f ensures ValAt(u, f, k).weight == ValAt(t, f, k).weight + Signed(k != l, Product(alpha, push(f))) {
      UpdatedWeight(t, fv, alpha, beta, l, rival, f, k);
    }
    ScoreMoves(t, u, fv, k != l, alpha, push, k);
  }

  /** An update moves the margin by the step size times the margin's reach, repeated features or not. */
  lemma MarginMoves(t: Table, fv: Fv, alpha: real, beta: real, l: Label, rival: Option<Label>)
    requires rival != Some(l)
    ensures Margin(Update(t, fv, alpha, beta, l, rival), fv, l, rival)
         == Margin(t, fv, l, rival) + Product(alpha, MarginReach(t, fv, beta, l, rival))
  {
    LabelMoves(t, fv, alpha, beta, l, rival, l);
    if rival.Some? {
      LabelMoves(t, fv, alpha, beta, l, rival, rival.value);
      ProductAdds(alpha, Reach(PushesOf(t, fv, beta, l, rival, l), fv),
                  Reach(PushesOf(t, fv, beta, l, rival, rival.value), fv));
    }
  }

  // ----- when a step overshoots

  /** The distance to margin 1 after a step is the one before divided by 1 + c * variance. */
  ghost predicate Narrowed(margin: real, now: real, c: real, variance: real) {
    && 1.0 + Product(c, variance) >= 1.0
    && 1.0 - now == (1.0 - margin) / (1.0 + Product(c, variance))
    && margin <= now < 1.0
  }

  lemma StepNumbers(margin: real, variance: real, c: real, now: real)
    requires margin < 1.0 && variance >= 0.0 && c > 0.0
    requires now == margin + Product(Product(1.0 - margin, Beta(variance, c)), variance)
    ensures Narrowed(margin, now, c, variance)
  {
    StepSize(margin, variance, c);
    assert Product(c, variance) >= 0.0;
    Quotient(1.0 - margin, Product(c, variance));
  }

  lemma TrainedTable(m: Model, c: real, fv: Fv, l: Label, rival: Option<Label>)
    requires c > 0.0 && InUnit(m.table)
    requires RivalOf(m, fv, l) == rival && Margin(m.table, fv, l, rival) < 1.0
    ensures Variance(m.table, fv, l, rival) >= 0.0
    ensures Train(m, c, fv, l).table
         == Stepped(m.table, fv, Margin(m.table, fv, l, rival), Beta(Variance(m.table, fv, l, rival), c), l, rival)
  {
    VarianceCovers(m.table, fv, l, rival, |fv|);
  }

  lemma LessOrMore(a: real, x: real, y: real)
    requires a > 0.0
    ensures Product(a, x) <= Product(a, y) <==> x <= y
  {
    if x < y {
      LessTimes(a, x, y);
    } else if y < x {
      LessTimes(a, y, x);
    }
  }

  /** With d = variance + 1 / c, a step of the code moves a margin by (1 - margin) / d times the reach. */
  lemma OvershootNumbers(margin: real, d: real, beta: real, reach: real)
    requires margin < 1.0 && d > 0.0 && beta == 1.0 / d
    ensures margin + Product(Product(1.0 - margin, beta), reach) <= 1.0 <==> reach <= d
  {
    var g := 1.0 - margin;
    assert beta > 0.0 && beta * d == 1.0;
    assert Product(Product(g, beta), reach) == Product(g, Product(beta, reach)) && Product(g, 1.0) == g;
    LessOrMore(g, Product(beta, reach), 1.0);
    LessOrMore(beta, reach, d);
  }

  lemma TrainedMargin(m: Model, c: real, fv: Fv, l: Label, rival: Option<Label>)
    requires c > 0.0 && InUnit(m.table)
    requires RivalOf(m, fv, l) == rival && Margin(m.table, fv, l, rival) < 1.0
    ensures var margin, variance := Margin(m.table, fv, l, rival), Variance(m.table, fv, l, rival);
            && variance >= 0.0
            && Margin(Train(m, c, fv, l).table, fv, l, rival)
               == margin + Product(Product(1.0 - margin, Beta(variance, c)),
                                   MarginReach(m.table, fv, Beta(variance, c), l, rival))
  {
    RivalIsOther(Scores(m.table, m.labels, fv), l);
    TrainedTable(m, c, fv, l, rival);
    var margin, beta := Margin(m.table, fv, l, rival), Beta(Variance(m.table, fv, l, rival), c);
    MarginMoves(m.table, fv, Product(1.0 - margin, beta), beta, l, rival);
  }

  /** A step ends above margin 1 if and only if the margin's reach exceeds the variance by more than 1 / c. */
  lemma OvershootIff(m: Model, c: real, fv: Fv, l: Label, rival: Option<Label>)
    requires c > 0.0 && InUnit(m.table)
    requires RivalOf(m, fv, l) == rival && Margin(m.table, fv, l, rival) < 1.0
    ensures var variance := Variance(m.table, fv, l, rival);
            && variance >= 0.0
            && (Margin(Train(m, c, fv, l).table, fv, l, rival) > 1.0
                <==> MarginReach(m.table, fv, Beta(variance, c), l, rival) > variance + 1.0 / c)
  {
    var margin, variance := Margin(m.table, fv, l, rival), Variance(m.table, fv, l, rival);
    TrainedMargin(m, c, fv, l, rival);
    var beta, d := Beta(variance, c), variance + 1.0 / c;
    BetaLimit(beta, d, 0.0);
    OvershootNumbers(margin, d, beta, MarginReach(m.table, fv, beta, l, rival));
  }

  // ----- distinct features

  ghost predicate DistinctFeatures(fv: Fv) {
    forall i, j :: 0 <= i < j < |fv| ==> fv[i].feature != fv[j].feature
  }

  lemma {:induction false} NoPush(t: Table, fv: Fv, beta: real, l: Label, rival: Option<Label>, f: Feature, k: Label)
    requires forall i :: 0 <= i < |fv| ==> fv[i].feature != f
    ensures Push(t, fv, beta, l, rival, f, k) == 0.0 && CovarAfter(t, fv, beta, l, rival, f, k) == ValAt(t, f, k).covar
  {
    if fv != [] {
      NoPush(t, fv[..|fv| - 1], beta, l, rival, f, k);
    }
  }

  /** A feature that occurs once meets its stored covariance. */
  lemma {:induction false} OnlyPush(t: Table, fv: Fv, beta: real, l: Label, rival: Option<Label>, i: nat, k: Label)
    requires i < |fv| && DistinctFeatures(fv)
    ensures Push(t, fv, beta, l, rival, fv[i].feature, k) == Product(ValAt(t, fv[i].feature, k).covar, fv[i].value)
  {
    var n := |fv| - 1;
    if i < n {
      OnlyPush(t, fv[..n], beta, l, rival, i, k);
    } else {
      NoPush(t, fv[..n], beta, l, rival, fv[n].feature, k);
    }
  }

  lemma ProductTwice(c: real, x: real)
    ensures Product(Product(c, x), x) == Spread(c, x)
  {
  }

  lemma {:induction false} ReachIsPart(t: Table, fv: Fv, push: Pushes, k: Label)
    requires forall i :: 0 <= i < |fv| ==> push(fv[i].feature) == Product(ValAt(t, fv[i].feature, k).covar, fv[i].value)
    ensures Reach(push, fv) == Part(t, fv, k)
  {
    if fv != [] {
      var x := fv[|fv| - 1];
      ReachIsPart(t, fv[..|fv| - 1], push, k);
      ProductTwice(ValAt(t, x.feature, k).covar, x.value);
    }
  }

  lemma DistinctReach(t: Table, fv: Fv, beta: real, l: Label, rival: Option<Label>, k: Label)
    requires DistinctFeatures(fv)
    ensures Reach(PushesOf(t, fv, beta, l, rival, k), fv) == Part(t, fv, k)
  {
    forall i | 0 <= i < |fv| { OnlyPush(t, fv, beta, l, rival, i, k); }
    ReachIsPart(t, fv, PushesOf(t, fv, beta, l, rival, k), k);
  }

  /** The part of the variance that one label's covariances make up. */
  function Part(t: Table, fv: Fv, l: Label): real {
    if fv == [] then 0.0
    else var c := fv[|fv| - 1]; Part(t, fv[..|fv| - 1], l) + Spread(ValAt(t, c.feature, l).covar, c.value)
  }

  lemma SpreadAdds(a: real, b: real, x: real)
    ensures Spread(a, x) + Spread(b, x) == Spread(a + b, x)
  {
  }

  lemma {:induction false} PartsMakeVariance(t: Table, fv: Fv, l: Label, rival: Label)
    ensures Variance(t, fv, l, Some(rival)) == Part(t, fv, l) + Part(t, fv, rival)
  {
    if fv != [] {
      var c := fv[|fv| - 1];
      PartsMakeVariance(t, fv[..|fv| - 1], l, rival);
      SpreadAdds(ValAt(t, c.feature, l).covar, ValAt(t, c.feature, rival).covar, c.value);
    }
  }

  /** The squared length of a feature vector. */
  function SquaredLength(fv: Fv): real {
    if fv == [] then 0.0
    else SquaredLength(fv[..|fv| - 1]) + Product(fv[|fv| - 1].value, fv[|fv| - 1].value)
  }

  lemma SpreadOfOne(c: real, x: real)
    ensures Spread(c + 1.0, x) == Spread(c, x) + Product(x, x)
  {
  }

  /** Without a rival the variance is the label's part and a covariance of 1 on every coordinate. */
  lemma {:induction false} PartAloneMakesVariance(t: Table, fv: Fv, l: Label)
    ensures Variance(t, fv, l, None) == Part(t, fv, l) + SquaredLength(fv)
  {
    if fv != [] {
      var c := fv[|fv| - 1];
      PartAloneMakesVariance(t, fv[..|fv| - 1], l);
      SpreadOfOne(ValAt(t, c.feature, l).covar, c.value);
    }
  }

  lemma Quotient(g: real, v: real)
    requires g > 0.0 && v >= 0.0
    ensures 0.0 < g / (1.0 + v) <= g
  {
    var q := g / (1.0 + v);
    assert q * (1.0 + v) == g;
    assert q > 0.0;
    assert q * v >= 0.0;
  }

  lemma {:induction false} PartIsLess(t: Table, fv: Fv, l: Label)
    requires InUnit(t)
    ensures 0.0 <= Part(t, fv, l) <= Variance(t, fv, l, None)
  {
    if fv != [] {
      var c := fv[|fv| - 1];
      PartIsLess(t, fv[..|fv| - 1], l);
      var covar := ValAt(t, c.feature, l).covar;
      assert covar > 0.0;
      SpreadPositive(covar, c.value);
      SpreadGrows(covar, covar + 1.0, c.value);
    }
  }

  lemma Partway(margin: real, variance: real, c: real, part: real)
    requires margin < 1.0 && 0.0 <= part <= variance && c > 0.0
    ensures margin <= margin + Product(Product(1.0 - margin, Beta(variance, c)), part) < 1.0
  {
    var alpha := Product(1.0 - margin, Beta(variance, c));
    BetaLimit(Beta(variance, c), variance + 1.0 / c, 0.0);
    assert alpha > 0.0;
    ProductGrows(alpha, part, variance);
    StepNumbers(margin, variance, c, margin + Product(alpha, variance));
  }

  /** With distinct features a step moves the margin towards 1 by exactly that factor, and never over it. */
  lemma StepTowardsOne(m: Model, c: real, fv: Fv, l: Label, rival: Label)
    requires c > 0.0 && InUnit(m.table) && DistinctFeatures(fv)
    requires RivalOf(m, fv, l) == Some(rival) && Margin(m.table, fv, l, Some(rival)) < 1.0
    ensures Narrowed(Margin(m.table, fv, l, Some(rival)), Margin(Train(m, c, fv, l).table, fv, l, Some(rival)),
                     c, Variance(m.table, fv, l, Some(rival)))
  {
    var margin, variance := Margin(m.table, fv, l, Some(rival)), Variance(m.table, fv, l, Some(rival));
    RivalIsOther(Scores(m.table, m.labels, fv), l);
    TrainedTable(m, c, fv, l, Some(rival));
    var beta := Beta(variance, c);
    MarginMoves(m.table, fv, Product(1.0 - margin, beta), beta, l, Some(rival));
    DistinctReach(m.table, fv, beta, l, Some(rival), l);
    DistinctReach(m.table, fv, beta, l, Some(rival), rival);
    PartsMakeVariance(m.table, fv, l, rival);
    StepNumbers(margin, variance, c, Margin(Train(m, c, fv, l).table, fv, l, Some(rival)));
  }

  lemma MovedPart(margin: real, c: real, variance: real, part: real, now: real)
    requires c > 0.0 && variance >= 0.0 && now == margin + Product(Product(1.0 - margin, Beta(variance, c)), part)
    ensures Product(now - margin, variance + 1.0 / c) == Product(1.0 - margin, part)
  {
    var g, beta, d := 1.0 - margin, Beta(variance, c), variance + 1.0 / c;
    assert beta * d == 1.0;
    assert (g * beta * part) * d == g * part * (beta * d);
  }

  /** Without a rival the variance still counts a covariance of 1 for it, so the step is shorter: of the distance
      to margin 1 the label's part is covered, out of that part, the squared length and 1 / C together. */
  lemma StepWithoutRival(m: Model, c: real, fv: Fv, l: Label)
    requires c > 0.0 && InUnit(m.table) && DistinctFeatures(fv)
    requires RivalOf(m, fv, l) == None && Margin(m.table, fv, l, None) < 1.0
    ensures var margin, now := Margin(m.table, fv, l, None), Margin(Train(m, c, fv, l).table, fv, l, None);
            var part := Part(m.table, fv, l);
            && margin <= now < 1.0
            && Product(now - margin, part + SquaredLength(fv) + 1.0 / c) == Product(1.0 - margin, part)
  {
    var margin, variance := Margin(m.table, fv, l, None), Variance(m.table, fv, l, None);
    TrainedTable(m, c, fv, l, None);
    var beta := Beta(variance, c);
    MarginMoves(m.table, fv, Product(1.0 - margin, beta), beta, l, None);
    DistinctReach(m.table, fv, beta, l, None, l);
    PartIsLess(m.table, fv, l);
    Partway(margin, variance, c, Part(m.table, fv, l));
    PartAloneMakesVariance(m.table, fv, l);
    MovedPart(margin, c, variance, Part(m.table, fv, l), Margin(Train(m, c, fv, l).table, fv, l, None));
  }

  // ----- how single entries move

  /** A feature that occurs once shrinks its covariances once. */
  lemma {:induction false} OnlyShrink(t: Table, fv: Fv, beta: real, l: Label, rival: Option<Label>, i: nat, k: Label)
    requires i < |fv| && DistinctFeatures(fv) && (k == l || rival == Some(k))
    ensures var covar := ValAt(t, fv[i].feature, k).covar;
            CovarAfter(t, fv, beta, l, rival, fv[i].feature, k) == covar - Shrink(beta, covar, fv[i].value)
  {
    var n := |fv| - 1;
    if i < n {
      OnlyShrink(t, fv[..n], beta, l, rival, i, k);
    } else {
      NoPush(t, fv[..n], beta, l, rival, fv[n].feature, k);
    }
  }

  /** The entry moves by the share of its own term in `all`: its weight towards the margin 1 by `gap` of it, up or
      down, its covariance towards 0. */
  ghost predicate MovesBy(before: Val, after: Val, x: real, gap: real, down: bool, all: real) {
    && Product(after.weight - before.weight, all) == Signed(down, Product(gap, Product(before.covar, x)))
    && Product(before.covar - after.covar, all) == Product(before.covar, Spread(before.covar, x))
  }

  lemma ShrinkShare(covar: real, x: real, beta: real, all: real)
    requires Product(beta, all) == 1.0
    ensures Product(Shrink(beta, covar, x), all) == Product(covar, Spread(covar, x))
  {
    assert (beta * covar * covar * x * x) * all == covar * (covar * x * x) * (beta * all);
  }

  lemma ShiftShare(gap: real, beta: real, push: real, all: real)
    requires Product(beta, all) == 1.0
    ensures Product(Product(Product(gap, beta), push), all) == Product(gap, push)
  {
    assert (gap * beta * push) * all == gap * push * (beta * all);
  }

  lemma EntryNumbers(before: Val, after: Val, x: real, gap: real, down: bool, beta: real, all: real)
    requires Product(beta, all) == 1.0
    requires after.weight == before.weight + Signed(down, Product(Product(gap, beta), Product(before.covar, x)))
    requires after.covar == before.covar - Shrink(beta, before.covar, x)
    ensures MovesBy(before, after, x, gap, down, all)
  {
    ShrinkShare(before.covar, x, beta, all);
    ShiftShare(gap, beta, Product(before.covar, x), all);
  }

  lemma BetaInverse(variance: real, c: real)
    requires c > 0.0 && variance >= 0.0
    ensures Product(Beta(variance, c), variance + 1.0 / c) == 1.0
  {
  }

  lemma UpdatedEntry(t: Table, fv: Fv, gap: real, beta: real, all: real, l: Label, rival: Option<Label>, i: nat,
                     k: Label)
    requires DistinctFeatures(fv) && i < |fv| && rival != Some(l) && (k == l || rival == Some(k))
    requires Product(beta, all) == 1.0
    ensures MovesBy(ValAt(t, fv[i].feature, k),
                    ValAt(Update(t, fv, Product(gap, beta), beta, l, rival), fv[i].feature, k),
                    fv[i].value, gap, k != l, all)
  {
    var alpha, f := Product(gap, beta), fv[i].feature;
    UpdatedCovar(t, fv, alpha, beta, l, rival, f, k);
    OnlyShrink(t, fv, beta, l, rival, i, k);
    UpdatedWeight(t, fv, alpha, beta, l, rival, f, k);
    OnlyPush(t, fv, beta, l, rival, i, k);
    EntryNumbers(ValAt(t, f, k), ValAt(Update(t, fv, alpha, beta, l, rival), f, k), fv[i].value, gap, k != l, beta,
                 all);
  }

  /** With distinct features a step moves each entry of the label, up, and of the rival, down, by the share that
      its own term has in the variance plus 1 / C. */
  lemma EntriesMove(m: Model, c: real, fv: Fv, l: Label, rival: Option<Label>, i: nat, k: Label)
    requires c > 0.0 && InUnit(m.table) && DistinctFeatures(fv) && i < |fv| && (k == l || rival == Some(k))
    requires RivalOf(m, fv, l) == rival && Margin(m.table, fv, l, rival) < 1.0
    ensures MovesBy(ValAt(m.table, fv[i].feature, k), ValAt(Train(m, c, fv, l).table, fv[i].feature, k), fv[i].value,
                    1.0 - Margin(m.table, fv, l, rival), k != l, Variance(m.table, fv, l, rival) + 1.0 / c)
  {
    RivalIsOther(Scores(m.table, m.labels, fv), l);
    TrainedTable(m, c, fv, l, rival);
    var margin, variance := Margin(m.table, fv, l, rival), Variance(m.table, fv, l, rival);
    BetaInverse(variance, c);
    UpdatedEntry(m.table, fv, 1.0 - margin, Beta(variance, c), variance + 1.0 / c, l, rival, i, k);
  }

  lemma {:induction false} OtherFeatures(t: Table, fv: Fv, alpha: real, beta: real, l: Label, rival: Option<Label>,
                                         f: Feature, k: Label)
    requires forall i :: 0 <= i < |fv| ==> fv[i].feature != f
    ensures ValAt(Update(t, fv, alpha, beta, l, rival), f, k) == ValAt(t, f, k)
  {
    if fv != [] {
      OtherFeatures(t, fv[..|fv| - 1], alpha, beta, l, rival, f, k);
    }
  }

  /** A step moves no entry of another label or of a feature that the example does not have. */
  lemma OthersStay(m: Model, c: real, fv: Fv, l: Label, f: Feature, k: Label)
    requires c > 0.0 && InUnit(m.table)
    requires (k != l && RivalOf(m, fv, l) != Some(k)) || forall i :: 0 <= i < |fv| ==> fv[i].feature != f
    ensures ValAt(Train(m, c, fv, l).table, f, k) == ValAt(m.table, f, k)
  {
    var rival := RivalOf(m, fv, l);
    RivalIsOther(Scores(m.table, m.labels, fv), l);
    if Margin(m.table, fv, l, rival) < 1.0 {
      TrainedTable(m, c, fv, l, rival);
      var beta := Beta(Variance(m.table, fv, l, rival), c);
      var alpha := Product(1.0 - Margin(m.table, fv, l, rival), beta);
      if k != l && rival != Some(k) {
        OtherWeights(m.table, fv, alpha, beta, l, rival, f, k);
      } else {
        OtherFeatures(m.table, fv, alpha, beta, l, rival, f, k);
      }
    }
  }

  // ----- the margin against the rival of the new scores

  lemma OtherScores(t: Table, g: Fv, fv: Fv, alpha: real, beta: real, l: Label, rival: Option<Label>, k: Label)
    requires k != l && rival != Some(k) && rival != Some(l)
    ensures Score(Update(t, fv, alpha, beta, l, rival), g, k) == Score(t, g, k)
    decreases |g|
  {
    if g != [] {
      OtherScores(t, g[..|g| - 1], fv, alpha, beta, l, rival, k);
      OtherWeights(t, fv, alpha, beta, l, rival, g[|g| - 1].feature, k);
    }
  }

  lemma ScoreListed(t: Table, labels: seq<Label>, fv: Fv, k: Label)
    ensures k in labels <==> Scored(k, Score(t, fv, k)) in Scores(t, labels, fv)
    ensures forall s :: s in Scores(t, labels, fv) ==> s.name in labels && s.score == Score(t, fv, s.name)
  {
    if k in labels {
      var i :| 0 <= i < |labels| && labels[i] == k;
      assert Scores(t, labels, fv)[i] == Scored(k, Score(t, fv, k));
    }
  }

  /** The rival is a registered label, and no registered label but the own one scores more. */
  lemma RivalIsBest(m: Model, fv: Fv, l: Label, k: Label)
    requires k in m.labels && k != l
    ensures var r := RivalOf(m, fv, l);
            r.Some? && r.value in m.labels && r.value != l && Score(m.table, fv, k) <= Score(m.table, fv, r.value)
  {
    RivalIsOther(Scores(m.table, m.labels, fv), l);
    ScoreListed(m.table, m.labels, fv, k);
  }

  /** What the step does to the scores: the own one does not fall, the rival's does not rise, others stay. */
  lemma StepScores(m: Model, c: real, fv: Fv, l: Label, rival: Label, k: Label)
    requires c > 0.0 && InUnit(m.table) && DistinctFeatures(fv)
    requires RivalOf(m, fv, l) == Some(rival) && rival != l && Margin(m.table, fv, l, Some(rival)) < 1.0
    ensures var u := Train(m, c, fv, l).table;
            && Score(m.table, fv, l) <= Score(u, fv, l) && Score(u, fv, rival) <= Score(m.table, fv, rival)
            && (k != l && k != rival ==> Score(u, fv, k) == Score(m.table, fv, k))
  {
    var margin, variance := Margin(m.table, fv, l, Some(rival)), Variance(m.table, fv, l, Some(rival));
    TrainedTable(m, c, fv, l, Some(rival));
    var beta := Beta(variance, c);
    var alpha := Product(1.0 - margin, beta);
    BetaLimit(beta, variance + 1.0 / c, 0.0);
    ProductGrows(1.0 - margin, 0.0, beta);
    ForwardMove(m.table, fv, alpha, beta, l, Some(rival), l);
    ForwardMove(m.table, fv, alpha, beta, l, Some(rival), rival);
    if k != l && k != rival {
      OtherScores(m.table, fv, fv, alpha, beta, l, Some(rival), k);
    }
  }

  lemma ForwardMove(t: Table, fv: Fv, alpha: real, beta: real, l: Label, rival: Option<Label>, k: Label)
    requires InUnit(t) && DistinctFeatures(fv) && rival != Some(l) && (k == l || rival == Some(k)) && alpha >= 0.0
    ensures var u := Update(t, fv, alpha, beta, l, rival);
            if k == l then Score(u, fv, k) >= Score(t, fv, k) else Score(u, fv, k) <= Score(t, fv, k)
  {
    LabelMoves(t, fv, alpha, beta, l, rival, k);
    DistinctReach(t, fv, beta, l, rival, k);
    PartIsLess(t, fv, k);
    NotNegative(alpha, Part(t, fv, k));
  }

  lemma NotNegative(a: real, x: real)
    requires a >= 0.0 && x >= 0.0
    ensures Product(a, x) >= 0.0
  {
  }

  /** Against the rival chosen anew after the step, the margin has not fallen either, and is below 1. */
  lemma NewRivalMargin(m: Model, c: real, fv: Fv, l: Label, rival: Label)
    requires c > 0.0 && InUnit(m.table) && DistinctFeatures(fv)
    requires RivalOf(m, fv, l) == Some(rival) && Margin(m.table, fv, l, Some(rival)) < 1.0
    ensures var next := Train(m, c, fv, l);
            RivalOf(next, fv, l).Some?
            && Margin(m.table, fv, l, Some(rival)) <= Margin(next.table, fv, l, RivalOf(next, fv, l)) < 1.0
  {
    var next := Train(m, c, fv, l);
    RivalIsOther(Scores(m.table, m.labels, fv), l);
    ScoreListed(m.table, m.labels, fv, rival);
    TrainedTable(m, c, fv, l, Some(rival));
    RivalIsBest(next, fv, l, rival);
    var r := RivalOf(next, fv, l).value;
    RivalIsBest(m, fv, l, r);
    StepScores(m, c, fv, l, rival, r);
    StepTowardsOne(m, c, fv, l, rival);
  }

  // ----- a repeated feature

  const TWICE: Fv := [Coord(0, 1.0), Coord(0, 1.0)]
  const UNTRAINED: Model := Model([0, 1], map[])

  lemma TwiceScore(t: Table, l: Label)
    ensures Score(t, TWICE, l) == 2.0 * ValAt(t, 0, l).weight
    ensures Variance(t, TWICE, 0, Some(1)) == 2.0 * (ValAt(t, 0, 0).covar + ValAt(t, 0, 1).covar)
  {
    assert TWICE[..1] == [Coord(0, 1.0)];
    assert [Coord(0, 1.0)][..0] == [];
    assert Score(t, [Coord(0, 1.0)], l) == Product(ValAt(t, 0, l).weight, 1.0);
    var c := ValAt(t, 0, 0).covar + ValAt(t, 0, 1).covar;
    assert Variance(t, [Coord(0, 1.0)], 0, Some(1)) == Spread(c, 1.0);
  }

  lemma UntrainedRival()
    ensures InUnit(UNTRAINED.table) && RivalOf(UNTRAINED, TWICE, 0) == Some(1)
  {
    var scores := Scores(map[], [0, 1], TWICE);
    assert scores[..1][..0] == [] && Rival(scores[..1], 0) == None;
  }

  lemma TwiceUpdated(u: Table)
    requires u == Update(map[], TWICE, 0.2, 0.2, 0, Some(1))
    ensures ValAt(u, 0, 0).weight == 0.36 && ValAt(u, 0, 1).weight == -0.36
  {
    var one := Update(map[], [Coord(0, 1.0)], 0.2, 0.2, 0, Some(1));
    assert TWICE[..1] == [Coord(0, 1.0)] && [Coord(0, 1.0)][..0] == [];
    OneUpdated(one);
    assert u == one[0 := UpdateRow(RowAt(one, 0), 1.0, 0.2, 0.2, 0, Some(1))];
    RowAfter(RowAt(one, 0), 1.0, 0.2, 0.2, 0, Some(1), 0);
    RowAfter(RowAt(one, 0), 1.0, 0.2, 0.2, 0, Some(1), 1);
  }

  lemma OneUpdated(one: Table)
    requires one == Update(map[], [Coord(0, 1.0)], 0.2, 0.2, 0, Some(1))
    ensures ValAt(one, 0, 0) == Val(0.2, 0.8) && ValAt(one, 0, 1) == Val(-0.2, 0.8)
  {
    assert [Coord(0, 1.0)][..0] == [];
    assert one == map[0 := UpdateRow(map[], 1.0, 0.2, 0.2, 0, Some(1))];
    RowAfter(map[], 1.0, 0.2, 0.2, 0, Some(1), 0);
    RowAfter(map[], 1.0, 0.2, 0.2, 0, Some(1), 1);
  }

  lemma TwiceMargin(t: Table)
    ensures Margin(t, TWICE, 0, Some(1)) == 2.0 * ValAt(t, 0, 0).weight - 2.0 * ValAt(t, 0, 1).weight
  {
    TwiceScore(t, 0);
    TwiceScore(t, 1);
  }

  lemma UntrainedNumbers()
    ensures InUnit(UNTRAINED.table) && RivalOf(UNTRAINED, TWICE, 0) == Some(1)
    ensures Margin(UNTRAINED.table, TWICE, 0, Some(1)) == 0.0 && Variance(UNTRAINED.table, TWICE, 0, Some(1)) == 4.0
  {
    UntrainedRival();
    TwiceMargin(UNTRAINED.table);
    TwiceScore(UNTRAINED.table, 0);
  }

  lemma UntrainedTrained(m: Model, fv: Fv) returns (u: Table)
    requires m == UNTRAINED && fv == TWICE
    ensures InUnit(m.table) && Train(m, 1.0, fv, 0).table == u
    ensures ValAt(u, 0, 0).weight == 0.36 && ValAt(u, 0, 1).weight == -0.36
  {
    UntrainedNumbers();
    TrainedTable(m, 1.0, fv, 0, Some(1));
    assert Beta(4.0, 1.0) == 0.2 && Product(1.0 - 0.0, 0.2) == 0.2;
    u := Update(m.table, fv, 0.2, 0.2, 0, Some(1));
    TwiceUpdated(u);
  }

  /** With a repeated feature the step can overshoot: the variance adds the squares of the two values, the
      score squares their sum. */
  lemma RepeatedFeatureOvershoots(m: Model, fv: Fv)
    requires m == UNTRAINED && fv == TWICE
    ensures InUnit(m.table) && RivalOf(m, fv, 0) == Some(1) && Margin(m.table, fv, 0, Some(1)) == 0.0
    ensures Margin(Train(m, 1.0, fv, 0).table, fv, 0, Some(1)) == 1.44
  {
    UntrainedNumbers();
    var u := UntrainedTrained(m, fv);
    TwiceMargin(u);
  }
}
